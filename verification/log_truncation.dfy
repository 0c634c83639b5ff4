/**
 The string logic of `TimeMain._clear_log` (speedport_Time.py:153-161):
 the log is reversed, split on the reversed start marker, and the first
 piece is reversed back and written out. What survives is the text after
 the last `[start]` marker: it begins at the line break that ends the
 marker's line, so that line's logging prefix and the marker itself go too.
 File reading and writing are left to the caller.
 */
module LogTruncation {
  import opened Text

  /** The line `_setup_logging` writes at every start-up. */
  const StartMarker := "[start]"

  /** The constant `_clear_log` splits the reversed log on. */
  const ReversedMarker := "]trats["

  lemma {:induction false} ReversedMarkerMirrorsStartMarker()
    ensures Reverse(StartMarker) == ReversedMarker
  {
    assert forall k :: 0 <= k < 7 ==> Reverse(StartMarker)[k] == ReversedMarker[k];
  }

  /** An occurrence of the start marker is a mirrored occurrence of the reversed marker in the reversed log. */
  lemma {:induction false} MirrorStart(text: string, j: int)
    ensures OccursAt(text, StartMarker, j) <==> OccursAt(Reverse(text), ReversedMarker, |text| - j - |StartMarker|)
  {
    ReversedMarkerMirrorsStartMarker();
    OccursReversed(text, StartMarker, |text| - j - |StartMarker|);
  }

  /** Dropping the first character shifts every occurrence one place left. */
  lemma {:induction false} OccursShift(text: string, sep: string, i: nat)
    requires |text| > 0
    ensures OccursAt(text[1..], sep, i) <==> OccursAt(text, sep, i + 1)
  {
    if i + |sep| <= |text| - 1 {
      assert text[1..][i..i + |sep|] == text[i + 1..i + 1 + |sep|];
    }
  }

  /**
   Python's `text.split(sep)[0]`: the text before the first occurrence of
   `sep`, or the whole text when `sep` does not occur. Python refuses an
   empty separator.
   */
  function FirstPiece(text: string, sep: string): (r: string)
    requires |sep| > 0
    ensures |r| <= |text| && r == text[..|r|]
    ensures forall i :: 0 <= i < |r| ==> !OccursAt(text, sep, i)
    ensures |r| < |text| ==> OccursAt(text, sep, |r|)
    decreases |text|
  {
    if |text| < |sep| then text
    else if text[..|sep|] == sep then []
    else
      var rest := FirstPiece(text[1..], sep);
      FreePrefixShift(text, sep, |rest|);
      OccursShift(text, sep, |rest|);
      [text[0]] + rest
  }

  /**
   A separator-free prefix of `text[1..]` extends to a separator-free
   prefix of `text` one longer, when no separator starts at index 0.
   */
  lemma {:induction false} FreePrefixShift(text: string, sep: string, n: nat)
    requires |text| > 0 && !OccursAt(text, sep, 0)
    requires forall i :: 0 <= i < n ==> !OccursAt(text[1..], sep, i)
    ensures forall i :: 0 <= i < n + 1 ==> !OccursAt(text, sep, i)
  {
    forall i | 1 <= i < n + 1
      ensures !OccursAt(text, sep, i)
    {
      OccursShift(text, sep, i - 1);
    }
  }

  /**
   The text `_clear_log` writes back in place of `text`: exactly the text
   after the last start marker, all of it when there is no marker, and in
   any case a text with no marker left.
   */
  function TruncateLog(text: string): (r: string)
    ensures |r| <= |text| && r == text[|text| - |r|..]
    ensures !Contains(text, StartMarker) ==> r == text
    ensures Contains(text, StartMarker) ==>
      && OccursAt(text, StartMarker, |text| - |r| - |StartMarker|)
      && forall j :: OccursAt(text, StartMarker, j) ==> j <= |text| - |r| - |StartMarker|
    ensures !Contains(r, StartMarker)
  {
    var r := Reverse(FirstPiece(Reverse(text), ReversedMarker));
    KeptTail(text, r);
    TailHasNoStart(text, r);
    r
  }

  /** The reversed first piece is the suffix after the last start marker. */
  lemma {:induction false} KeptTail(text: string, r: string)
    requires r == Reverse(FirstPiece(Reverse(text), ReversedMarker))
    ensures |r| <= |text| && r == text[|text| - |r|..]
    ensures !Contains(text, StartMarker) ==> r == text
    ensures Contains(text, StartMarker) ==>
      && OccursAt(text, StartMarker, |text| - |r| - |StartMarker|)
      && forall j :: OccursAt(text, StartMarker, j) ==> j <= |text| - |r| - |StartMarker|
  {
    var t := Reverse(text);
    var p := FirstPiece(t, ReversedMarker);
    var n := |text|;
    var m := |StartMarker|;
    ReverseReverse(text);
    ReverseSlice(t, 0, |p|);
    assert r == text[n - |p|..];
    if |p| < |t| {
      MirrorStart(text, n - |p| - m);
      forall j | OccursAt(text, StartMarker, j)
        ensures j <= n - |r| - m
      {
        MirrorStart(text, j);
      }
    } else {
      assert r == text;
      if Contains(text, StartMarker) {
        var j :| 0 <= j <= n && OccursAt(text, StartMarker, j);
        MirrorStart(text, j);
        assert false;
      }
    }
  }

  /** A suffix that starts after the last start marker holds none. */
  lemma {:induction false} TailHasNoStart(text: string, r: string)
    requires |r| <= |text| && r == text[|text| - |r|..]
    requires !Contains(text, StartMarker) ==> r == text
    requires Contains(text, StartMarker) ==>
      forall j :: OccursAt(text, StartMarker, j) ==> j <= |text| - |r| - |StartMarker|
    ensures !Contains(r, StartMarker)
  {
    if Contains(r, StartMarker) {
      var k :| 0 <= k <= |r| && OccursAt(r, StartMarker, k);
      SuffixOccurrence(text, r, StartMarker, k);
    }
  }

  /** An occurrence inside a suffix is an occurrence in the whole text. */
  lemma {:induction false} SuffixOccurrence(text: string, r: string, m: string, k: int)
    requires |r| <= |text| && r == text[|text| - |r|..]
    requires OccursAt(r, m, k)
    ensures OccursAt(text, m, |text| - |r| + k)
  {
    var j := |text| - |r| + k;
    assert r[k..k + |m|] == text[j..j + |m|];
  }

  /** Clearing the log a second time changes nothing. */
  lemma {:induction false} TruncateLogIdempotent(text: string)
    ensures TruncateLog(TruncateLog(text)) == TruncateLog(text)
  {
  }
}
