/** Strings the board serialisers build: Python's str() of an int, joining
    with a separator, and counting a character. */
module Text {

  /** The decimal digits of a natural number. */
  function NatText(n: nat): (s: string)
    ensures |s| >= 1
    ensures forall k :: 0 <= k < |s| ==> '0' <= s[k] <= '9'
  {
    if n < 10 then [Digit(n)] else NatText(n / 10) + [Digit(n % 10)]
  }

  function Digit(d: nat): (c: char)
    requires d < 10
    ensures '0' <= c <= '9'
  {
    ['0', '1', '2', '3', '4', '5', '6', '7', '8', '9'][d]
  }

  /** Python's str(x) for an int. */
  function IntText(x: int): (s: string)
    ensures |s| >= 1
    ensures forall k :: 0 <= k < |s| ==> s[k] == '-' || '0' <= s[k] <= '9'
  {
    if x < 0 then "-" + NatText(-x) else NatText(x)
  }

  /** sep.join(parts). */
  function Join(parts: seq<string>, sep: char): string
  {
    if |parts| == 0 then ""
    else if |parts| == 1 then parts[0]
    else Join(parts[..|parts| - 1], sep) + [sep] + parts[|parts| - 1]
  }

  /** Every part followed by sep. */
  function Terminated(parts: seq<string>, sep: char): string
  {
    if parts == [] then ""
    else Terminated(parts[..|parts| - 1], sep) + parts[|parts| - 1] + [sep]
  }

  /** Terminating every part is joining them and adding one final sep. */
  lemma {:induction false} TerminatedIsJoinPlusSep(parts: seq<string>, sep: char)
    requires parts != []
    ensures Terminated(parts, sep) == Join(parts, sep) + [sep]
  {
    if |parts| > 1 {
      TerminatedIsJoinPlusSep(parts[..|parts| - 1], sep);
    } else {
      assert parts[..0] == [];
    }
  }

  function CountChar(s: string, c: char): nat
  {
    if s == "" then 0 else CountChar(s[..|s| - 1], c) + (if s[|s| - 1] == c then 1 else 0)
  }

  lemma {:induction false} CountCharAppend(s: string, t: string, c: char)
    ensures CountChar(s + t, c) == CountChar(s, c) + CountChar(t, c)
  {
    if t != "" {
      assert (s + t)[..|s + t| - 1] == s + t[..|t| - 1];
      CountCharAppend(s, t[..|t| - 1], c);
    } else {
      assert s + t == s;
    }
  }

  /** The text of an int holds neither a tab nor a newline. */
  lemma {:induction false} IntTextPlain(x: int, c: char)
    requires c == '\t' || c == '\n'
    ensures CountChar(IntText(x), c) == 0
  {
    var s := IntText(x);
    PlainCount(s, c);
  }

  lemma {:induction false} PlainCount(s: string, c: char)
    requires forall k :: 0 <= k < |s| ==> s[k] != c
    ensures CountChar(s, c) == 0
  {
    if s != "" {
      PlainCount(s[..|s| - 1], c);
    }
  }

  /** Counting c in a join of parts that each hold c exactly m times. */
  lemma {:induction false} JoinCount(parts: seq<string>, sep: char, c: char, m: nat)
    requires forall k :: 0 <= k < |parts| ==> CountChar(parts[k], c) == m
    ensures CountChar(Join(parts, sep), c) ==
              |parts| * m + (if c == sep && parts != [] then |parts| - 1 else 0)
  {
    if |parts| > 1 {
      var init, last := parts[..|parts| - 1], parts[|parts| - 1];
      JoinCount(init, sep, c, m);
      CountCharAppend(Join(init, sep), [sep], c);
      CountCharAppend(Join(init, sep) + [sep], last, c);
      assert CountChar([sep], c) == (if c == sep then 1 else 0) by {
        assert [sep][..0] == "";
      }
      assert CountChar(last, c) == m;
      MulSucc(|init|, m);
    } else if |parts| == 1 {
      assert CountChar(parts[0], c) == m;
    }
  }

  /** Counting c in the terminated parts that each hold c exactly m times. */
  lemma {:induction false} TerminatedCount(parts: seq<string>, sep: char, c: char, m: nat)
    requires forall k :: 0 <= k < |parts| ==> CountChar(parts[k], c) == m
    ensures CountChar(Terminated(parts, sep), c) == |parts| * m + (if c == sep then |parts| else 0)
  {
    if parts != [] {
      var init, last := parts[..|parts| - 1], parts[|parts| - 1];
      TerminatedCount(init, sep, c, m);
      CountCharAppend(Terminated(init, sep), last, c);
      CountCharAppend(Terminated(init, sep) + last, [sep], c);
      assert CountChar([sep], c) == (if c == sep then 1 else 0) by {
        assert [sep][..0] == "";
      }
      assert CountChar(last, c) == m;
      MulSucc(|init|, m);
    }
  }

  /** One more part adds m to the count; the inductive steps of JoinCount and TerminatedCount need it. */
  lemma MulSucc(n: nat, m: nat)
    ensures (n + 1) * m == n * m + m
  {
  }

  /** str(element) for every cell of a row. */
  function CellTexts(row: seq<int>): (parts: seq<string>)
    ensures |parts| == |row|
    ensures forall k :: 0 <= k < |row| ==> parts[k] == IntText(row[k])
  {
    seq(|row|, k requires 0 <= k < |row| => IntText(row[k]))
  }

  /** The cell texts hold neither tabs nor newlines. */
  lemma CellTextsPlain(row: seq<int>, c: char)
    requires c == '\t' || c == '\n'
    ensures forall k :: 0 <= k < |row| ==> CountChar(CellTexts(row)[k], c) == 0
  {
    forall k | 0 <= k < |row| ensures CountChar(CellTexts(row)[k], c) == 0 {
      IntTextPlain(row[k], c);
    }
  }

  /** A join is the terminated init followed by the last part. */
  lemma JoinLast(parts: seq<string>, sep: char)
    requires parts != []
    ensures Join(parts, sep) == Terminated(parts[..|parts| - 1], sep) + parts[|parts| - 1]
  {
    if |parts| > 1 {
      TerminatedIsJoinPlusSep(parts[..|parts| - 1], sep);
      assert parts[..|parts| - 1][..|parts| - 2] == parts[..|parts| - 2];
    }
  }

  /** Cutting the last character off a text that ends in c. */
  lemma DropLast(u: string, t: string, c: char)
    requires t == u + [c]
    ensures t[..|t| - 1] == u
  {
  }

  /** Terminating one more part: the text so far, then the next part and its separator. */
  lemma TerminatedStep(parts: seq<string>, i: int, s: string, piece: string, sep: char)
    requires 0 <= i < |parts| && s == Terminated(parts[..i], sep) && piece == parts[i] + [sep]
    ensures s + piece == Terminated(parts[..i + 1], sep)
  {
    assert parts[..i + 1][..i] == parts[..i];
  }
}
