/**
 String vocabulary shared by the model: Python's `s[::-1]`, occurrence of a
 marker inside a text, and `str.split("\n")`, the view under which a
 multi-line message is read as its lines.
 */
module Text {

  /** True when `s` holds no line break. */
  predicate NoNewline(s: string) {
    forall k :: 0 <= k < |s| ==> s[k] != '\n'
  }

  /** `n` copies of `c`, Python's `c * n`. */
  function Repeat(c: char, n: nat): (r: string)
    ensures |r| == n
    ensures forall k :: 0 <= k < n ==> r[k] == c
  {
    seq(n, _ => c)
  }

  /** Python's `s[::-1]`. */
  function Reverse(s: string): (r: string)
    ensures |r| == |s|
    ensures forall k :: 0 <= k < |s| ==> r[k] == s[|s| - 1 - k]
  {
    if s == [] then [] else Reverse(s[1..]) + [s[0]]
  }

  lemma {:induction false} ReverseReverse(s: string)
    ensures Reverse(Reverse(s)) == s
  {
    assert forall k :: 0 <= k < |s| ==> Reverse(Reverse(s))[k] == s[k];
  }

  /** Reversing a slice gives the mirrored slice of the reversed text. */
  lemma {:induction false} ReverseSlice(s: string, a: nat, b: nat)
    requires a <= b <= |s|
    ensures Reverse(s)[|s| - b..|s| - a] == Reverse(s[a..b])
  {
    var lhs := Reverse(s)[|s| - b..|s| - a];
    var rhs := Reverse(s[a..b]);
    assert |lhs| == |rhs|;
    forall k | 0 <= k < |lhs|
      ensures lhs[k] == rhs[k]
    {
      assert lhs[k] == Reverse(s)[|s| - b + k] == s[b - 1 - k];
      assert rhs[k] == s[a..b][b - a - 1 - k] == s[b - 1 - k];
    }
  }

  /** `m` sits in `s` starting at index `i`. */
  predicate OccursAt(s: string, m: string, i: int) {
    0 <= i && i + |m| <= |s| && s[i..i + |m|] == m
  }

  /** Python's `m in s`. */
  predicate Contains(s: string, m: string) {
    exists i :: 0 <= i <= |s| && OccursAt(s, m, i)
  }

  /**
   An occurrence of `m` at `i` in the reversed text is an occurrence of
   the reversed marker mirrored around the text's middle.
   */
  lemma {:induction false} OccursReversed(s: string, m: string, i: int)
    ensures OccursAt(Reverse(s), Reverse(m), i) <==> OccursAt(s, m, |s| - i - |m|)
  {
    var j := |s| - i - |m|;
    if 0 <= i && i + |m| <= |s| {
      var piece := s[j..j + |m|];
      ReverseSlice(s, j, j + |m|);
      assert Reverse(s)[i..i + |m|] == Reverse(piece);
      ReverseInjective(piece, m);
    } else {
      assert !OccursAt(s, m, j);
    }
  }

  lemma {:induction false} ReverseInjective(a: string, b: string)
    ensures Reverse(a) == Reverse(b) <==> a == b
  {
    if Reverse(a) == Reverse(b) {
      ReverseReverse(a);
      ReverseReverse(b);
    }
  }

  /**
   Python's `s.split("\n")`: the pieces between line breaks. There is always
   one more piece than there are line breaks.
   */
  function SplitLines(s: string): (r: seq<string>)
    ensures |r| >= 1
  {
    if s == [] then [[]]
    else if s[0] == '\n' then [[]] + SplitLines(s[1..])
    else
      var rest := SplitLines(s[1..]);
      [[s[0]] + rest[0]] + rest[1..]
  }

  /** Lines terminated by a line break each, the way a message is accumulated with `+= line + "\n"`. */
  function Terminated(lines: seq<string>): string {
    if lines == [] then [] else lines[0] + "\n" + Terminated(lines[1..])
  }

  lemma {:induction false} SplitOneLine(a: string)
    requires NoNewline(a)
    ensures SplitLines(a) == [a]
    decreases |a|
  {
    if a != [] {
      SplitOneLine(a[1..]);
      assert [a[0]] + a[1..] == a;
    }
  }

  /** A line break ends the first line: what precedes it is the first piece. */
  lemma {:induction false} SplitFirstLine(a: string, b: string)
    requires NoNewline(a)
    ensures SplitLines(a + "\n" + b) == [a] + SplitLines(b)
    decreases |a|
  {
    var s := a + "\n" + b;
    if a == [] {
      assert s[1..] == b;
    } else {
      assert s[1..] == a[1..] + "\n" + b;
      SplitFirstLine(a[1..], b);
      assert [a[0]] + a[1..] == a;
    }
  }

  /** Splitting undoes terminating: the lines come back in order. */
  lemma {:induction false} SplitTerminated(lines: seq<string>, tail: string)
    requires forall k :: 0 <= k < |lines| ==> NoNewline(lines[k])
    ensures SplitLines(Terminated(lines) + tail) == lines + SplitLines(tail)
    decreases |lines|
  {
    if lines != [] {
      var rest := Terminated(lines[1..]) + tail;
      TerminatedFirst(lines, tail);
      SplitFirstLine(lines[0], rest);
      SplitTerminated(lines[1..], tail);
      ConsAssoc(lines, SplitLines(tail));
    } else {
      assert Terminated(lines) + tail == tail;
    }
  }

  lemma {:induction false} TerminatedFirst(lines: seq<string>, tail: string)
    requires lines != []
    ensures Terminated(lines) + tail == lines[0] + "\n" + (Terminated(lines[1..]) + tail)
  {
  }

  lemma {:induction false} ConsAssoc(lines: seq<string>, more: seq<string>)
    requires lines != []
    ensures [lines[0]] + (lines[1..] + more) == lines + more
  {
    assert [lines[0]] + lines[1..] == lines;
  }
}
