/** String helpers: the handful of `String.prototype` methods the converters use,
    restricted to ASCII case mapping. */
module Strings {
  import opened Wrappers

  function UpperChar(c: char): char
  {
    if 'a' <= c <= 'z' then (c as int - 32) as char else c
  }

  function LowerChar(c: char): char
  {
    if 'A' <= c <= 'Z' then (c as int + 32) as char else c
  }

  /** `toUpperCase` on ASCII letters. */
  function Upper(s: string): (r: string)
    ensures |r| == |s|
    ensures forall i :: 0 <= i < |s| ==> r[i] == UpperChar(s[i])
  {
    if s == [] then [] else [UpperChar(s[0])] + Upper(s[1..])
  }

  /** `toLowerCase` on ASCII letters. */
  function Lower(s: string): (r: string)
    ensures |r| == |s|
    ensures forall i :: 0 <= i < |s| ==> r[i] == LowerChar(s[i])
  {
    if s == [] then [] else [LowerChar(s[0])] + Lower(s[1..])
  }

  /** `s.lastIndexOf(c)`: the position of the last `c`, or -1. */
  function LastIndexOf(s: string, c: char): (r: int)
    ensures -1 <= r < |s|
    ensures r >= 0 ==> s[r] == c
    ensures forall j :: r < j < |s| ==> s[j] != c
  {
    if s == [] then -1
    else if s[|s| - 1] == c then |s| - 1
    else LastIndexOf(s[..|s| - 1], c)
  }

  /** `s.split(c).pop()`: the text after the last `c`, or all of `s` when it has none. */
  function AfterLast(s: string, c: char): (r: string)
    ensures c !in r
    ensures LastIndexOf(s, c) == -1 ==> r == s
    ensures LastIndexOf(s, c) >= 0 ==> s == s[..LastIndexOf(s, c) + 1] + r
  {
    var i := LastIndexOf(s, c);
    assert forall j :: i < j < |s| ==> s[j] != c;
    s[i + 1..]
  }

  predicate IsDigit(c: char) { '0' <= c <= '9' }

  function DigitChar(d: int): (c: char)
    requires 0 <= d <= 9
    ensures IsDigit(c)
  {
    ('0' as int + d) as char
  }

  /** The decimal numeral of a natural number, as template literals print one. */
  function NatToString(n: nat): (s: string)
    ensures |s| >= 1 && forall i :: 0 <= i < |s| ==> IsDigit(s[i])
    ensures |s| > 1 ==> s[0] != '0'
  {
    if n < 10 then [DigitChar(n)] else NatToString(n / 10) + [DigitChar(n % 10)]
  }

  /** The value of a string of decimal digits. */
  function ParseDigits(s: string): nat
    requires forall i :: 0 <= i < |s| ==> IsDigit(s[i])
  {
    if s == [] then 0
    else
      assert IsDigit(s[|s| - 1]);
      10 * ParseDigits(s[..|s| - 1]) + (s[|s| - 1] as int - '0' as int)
  }

  /** Reading the numeral back gives the number. */
  lemma {:induction false} ParseNatToString(n: nat)
    ensures ParseDigits(NatToString(n)) == n
  {
    if n >= 10 {
      ParseNatToString(n / 10);
      var s := NatToString(n);
      assert s[..|s| - 1] == NatToString(n / 10);
    }
  }

  /** The position of the first `c` in `s`, or `|s|` when it has none. */
  function IndexOf(s: string, c: char): (r: nat)
    ensures r <= |s| && (r < |s| ==> s[r] == c)
    ensures forall j :: 0 <= j < r ==> s[j] != c
  {
    if s == [] then 0
    else if s[0] == c then 0
    else
      var r := 1 + IndexOf(s[1..], c);
      assert forall j :: 1 <= j < r ==> s[j] == s[1..][j - 1];
      r
  }

  /** `s.split(c)`: the pieces between the separators, at least one. */
  function Split(s: string, c: char): (r: seq<string>)
    ensures |r| >= 1
    decreases |s|
  {
    var k := IndexOf(s, c);
    if k == |s| then [s] else [s[..k]] + Split(s[k + 1..], c)
  }

  /** `ws.join(c)`. */
  function Join(ws: seq<string>, c: char): string
  {
    if ws == [] then "" else if |ws| == 1 then ws[0] else ws[0] + [c] + Join(ws[1..], c)
  }

  /** Splitting undoes joining when no piece holds the separator. */
  lemma {:induction false} SplitJoin(ws: seq<string>, c: char)
    requires |ws| >= 1 && forall i :: 0 <= i < |ws| ==> c !in ws[i]
    ensures Split(Join(ws, c), c) == ws
  {
    var s := Join(ws, c);
    var w := ws[0];
    if |ws| == 1 {
      assert s == w;
    } else {
      var rest := Join(ws[1..], c);
      assert s == w + [c] + rest;
      var k := IndexOf(s, c);
      assert k == |w| by {
        assert s[|w|] == c;
        assert forall j :: 0 <= j < |w| ==> s[j] == w[j];
      }
      assert s[..k] == w && s[k + 1..] == rest;
      SplitJoin(ws[1..], c);
      assert ws == [w] + ws[1..];
    }
  }

  /** Text written line by line, each line followed by a newline. */
  function Unlines(ls: seq<string>): string
  {
    if ls == [] then "" else ls[0] + "\n" + Unlines(ls[1..])
  }

  lemma UnlinesCons(l: string, ls: seq<string>)
    ensures Unlines([l] + ls) == l + "\n" + Unlines(ls)
  {
    assert ([l] + ls)[1..] == ls;
  }

  lemma {:induction false} UnlinesAppend(a: seq<string>, b: seq<string>)
    ensures Unlines(a + b) == Unlines(a) + Unlines(b)
  {
    if a != [] {
      UnlinesAppend(a[1..], b);
      assert (a + b)[1..] == a[1..] + b;
    } else {
      assert a + b == b;
    }
  }

  lemma UnlinesSnoc(ls: seq<string>, l: string)
    ensures Unlines(ls + [l]) == Unlines(ls) + l + "\n"
  {
    UnlinesAppend(ls, [l]);
    UnlinesCons(l, []);
  }

  lemma {:induction false} UnlinesJoin(ls: seq<string>, tail: string)
    ensures Unlines(ls) + tail == Join(ls + [tail], '\n')
  {
    if ls != [] {
      UnlinesJoin(ls[1..], tail);
      assert (ls + [tail])[1..] == ls[1..] + [tail];
    }
  }

  /** `s.split('\n')` of text written line by line and ended by `tail`: the lines, then
      `tail` (empty when the text ends with a newline). */
  lemma ReadLines(ls: seq<string>, tail: string)
    requires forall i :: 0 <= i < |ls| ==> '\n' !in ls[i]
    requires '\n' !in tail
    ensures Split(Unlines(ls) + tail, '\n') == ls + [tail]
  {
    UnlinesJoin(ls, tail);
    SplitJoin(ls + [tail], '\n');
  }

  /** No line holds a line break. */
  predicate OneLine(ls: seq<string>)
  {
    forall i :: 0 <= i < |ls| ==> '\n' !in ls[i]
  }

  lemma OneLineJoin(a: seq<string>, b: seq<string>)
    requires OneLine(a) && OneLine(b)
    ensures OneLine(a + b)
  {
    forall i | 0 <= i < |a + b|
      ensures '\n' !in (a + b)[i]
    {
      if i >= |a| {
        assert (a + b)[i] == b[i - |a|];
      }
    }
  }

  /** The text between `open` and `close` when `line` starts with the one and ends with
      the other. */
  function Unframe(line: string, open: string, close: string): Option<string>
  {
    var a, b := |open|, |line| - |close|;
    if a <= b && line[..a] == open && line[b..] == close then Some(line[a..b]) else None
  }

  lemma UnframeFramed(open: string, d: string, close: string)
    ensures Unframe(open + d + close, open, close) == Some(d)
  {
    var line := open + d + close;
    assert line[..|open|] == open;
    assert line[|line| - |close|..] == close;
    assert line[|open|..|line| - |close|] == d;
  }

  lemma NoNewlineConcat(a: string, b: string, c: string)
    requires '\n' !in a && '\n' !in b && '\n' !in c
    ensures '\n' !in a + b + c
  {
  }

  /** The lists of lines one after the other. */
  function Concat(bs: seq<seq<string>>): seq<string>
  {
    if bs == [] then [] else bs[0] + Concat(bs[1..])
  }

  lemma {:induction false} ConcatSnoc(bs: seq<seq<string>>, b: seq<string>)
    ensures Concat(bs + [b]) == Concat(bs) + b
  {
    if bs == [] {
      assert bs + [b] == [b];
    } else {
      ConcatSnoc(bs[1..], b);
      assert (bs + [b])[1..] == bs[1..] + [b];
    }
  }

  lemma {:induction false} ConcatOneLine(bs: seq<seq<string>>)
    requires forall k :: 0 <= k < |bs| ==> OneLine(bs[k])
    ensures OneLine(Concat(bs))
  {
    if bs != [] {
      ConcatOneLine(bs[1..]);
      OneLineJoin(bs[0], Concat(bs[1..]));
    }
  }

  /** The three parts of a list made of a head, a body and a foot. */
  lemma Framed<T>(head: seq<T>, body: seq<T>, foot: seq<T>)
    ensures var ls := head + body + foot;
      ls[..|head|] == head && ls[|ls| - |foot|..] == foot && ls[|head|..|ls| - |foot|] == body
  {
  }
}

