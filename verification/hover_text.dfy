/**
 The hover text `TimeMain._update_time` builds from a reading
 (speedport_Time.py:184-198) before handing it to the tray icon. `_update_time`
 indexes the reading without checking it, so the text is defined for
 populated readings only.
 */
module HoverText {
  import opened Text
  import opened ScrapedValues

  /** What is shown for an empty remaining time. */
  const Unlimited := "Unbeschränkt"

  /** The remaining time as shown: an empty one means there is no limit. */
  function ShownRemaining(values: Values): string
    requires Populated(values)
  {
    var remaining := values[RemainingTimeKey].s;
    if remaining == "" then Unlimited else remaining
  }

  /** "Ja" when the time-limit element is displayed, "Nein" otherwise. */
  function ConnectionPossible(values: Values): string
    requires Populated(values)
  {
    if values[TimelimitKey].b then "Ja" else "Nein"
  }

  function WindowLine(item: Field): string
    requires item.FromTo?
  {
    "Du kannst dich zwischen " + item.from + " - " + item.to + " Verbinden"
  }

  /** The loop over the windows: one terminated line per displayed window, in order. */
  function WindowText(items: seq<Field>): string
    requires forall k :: 0 <= k < |items| ==> items[k].FromTo?
  {
    if items == [] then ""
    else (if items[0].displayed then WindowLine(items[0]) + "\n" else "") + WindowText(items[1..])
  }

  /**
   The complete hover text. It opens with the remaining-time line, then come
   the displayed windows' lines, each ended by a line break, then whether a
   connection is possible today; the last-update line always closes it.
   */
  function Hover(values: Values): (text: string)
    requires Populated(values)
    ensures var remaining := values[RemainingTimeKey].s;
      var first := "Verbleibende Zeit: " + (if remaining == "" then "Unbeschränkt" else remaining) + "\n";
      var possible := "Verbindung Heute Möglich: " + (if values[TimelimitKey].b then "Ja" else "Nein") + "\n";
      var last := "Letztes Update: " + values[TimestampKey].s;
      && |first| + |possible| + |last| <= |text|
      && text[..|first|] == first
      && text[|first|..|text| - |last| - |possible|] == Terminated(VisibleLines(Windows(values)))
      && text[|text| - |last| - |possible|..|text| - |last|] == possible
      && text[|text| - |last|..] == last
  {
    var first := "Verbleibende Zeit: " + ShownRemaining(values) + "\n";
    var middle := WindowText(Windows(values));
    var possible := "Verbindung Heute Möglich: " + ConnectionPossible(values) + "\n";
    var last := "Letztes Update: " + values[TimestampKey].s;
    WindowTextTerminated(Windows(values));
    Affixes(first, middle, possible, last);
    first + middle + possible + last
  }

  /** How many of the windows are displayed. */
  function CountVisible(items: seq<Field>): (n: nat)
    requires forall k :: 0 <= k < |items| ==> items[k].FromTo?
    ensures n <= |items|
  {
    if items == [] then 0
    else (if items[0].displayed then 1 else 0) + CountVisible(items[1..])
  }

  /** The window lines as a list, the reference the loop is compared with. */
  function VisibleLines(items: seq<Field>): seq<string>
    requires forall k :: 0 <= k < |items| ==> items[k].FromTo?
  {
    if items == [] then []
    else (if items[0].displayed then [WindowLine(items[0])] else []) + VisibleLines(items[1..])
  }

  /**
   A displayed window's line comes after the lines of the displayed windows
   before it, and hidden windows contribute no line.
   */
  lemma {:induction false} VisibleLinesInOrder(items: seq<Field>)
    requires forall k :: 0 <= k < |items| ==> items[k].FromTo?
    ensures |VisibleLines(items)| == CountVisible(items)
    ensures forall i :: 0 <= i < |items| && items[i].displayed ==>
      && CountVisible(items[..i]) < CountVisible(items)
      && VisibleLines(items)[CountVisible(items[..i])] == WindowLine(items[i])
    decreases |items|
  {
    if items != [] {
      var rest := items[1..];
      VisibleLinesInOrder(rest);
      forall i | 0 <= i < |items| && items[i].displayed
        ensures CountVisible(items[..i]) < CountVisible(items)
        ensures VisibleLines(items)[CountVisible(items[..i])] == WindowLine(items[i])
      {
        if i > 0 {
          assert items[..i][1..] == rest[..i - 1];
          assert items[i] == rest[i - 1];
        } else {
          assert items[..i] == [];
        }
      }
    }
  }

  /** The window loop writes exactly the visible lines, each terminated. */
  lemma {:induction false} WindowTextTerminated(items: seq<Field>)
    requires forall k :: 0 <= k < |items| ==> items[k].FromTo?
    ensures WindowText(items) == Terminated(VisibleLines(items))
    decreases |items|
  {
    if items != [] {
      WindowTextTerminated(items[1..]);
      if items[0].displayed {
        var lines := VisibleLines(items);
        assert lines[1..] == VisibleLines(items[1..]);
      } else {
        assert VisibleLines(items) == VisibleLines(items[1..]);
        assert WindowText(items) == WindowText(items[1..]);
      }
    }
  }

  /** Where each part of a four-part text sits. */
  lemma {:induction false} Affixes(a: string, b: string, c: string, d: string)
    ensures var s := a + b + c + d;
      && s[..|a|] == a
      && s[|a|..|s| - |d| - |c|] == b
      && s[|s| - |d| - |c|..|s| - |d|] == c
      && s[|s| - |d|..] == d
  {
  }

  /** Every text the reading contributes is a single line. */
  predicate OneLineFields(values: Values)
    requires Populated(values)
  {
    && NoNewline(values[RemainingTimeKey].s)
    && NoNewline(values[TimestampKey].s)
    && forall k :: 0 <= k < |Windows(values)| ==>
         NoNewline(Windows(values)[k].from) && NoNewline(Windows(values)[k].to)
  }

  /** The hover text regrouped line by line. */
  lemma {:induction false} HoverShape(values: Values)
    requires Populated(values)
    ensures Hover(values) ==
      ("Verbleibende Zeit: " + ShownRemaining(values)) + "\n"
      + (WindowText(Windows(values))
         + (("Verbindung Heute Möglich: " + ConnectionPossible(values)) + "\n"
            + ("Letztes Update: " + values[TimestampKey].s)))
  {
  }

  /**
   Read line by line, the hover text is the remaining-time line, one line
   per displayed window in window order (a displayed window's line follows
   those of the displayed windows before it, a hidden window has none),
   whether a connection is possible today, and the last-update line.
   */
  lemma {:induction false} HoverLines(values: Values)
    requires Populated(values) && OneLineFields(values)
    ensures var lines := SplitLines(Hover(values));
      var ws := Windows(values);
      var n := CountVisible(ws);
      var remaining := values[RemainingTimeKey].s;
      && |lines| == n + 3
      && lines[0] == "Verbleibende Zeit: " + (if remaining == "" then "Unbeschränkt" else remaining)
      && (forall i :: 0 <= i < |ws| && ws[i].displayed ==>
            && 1 + CountVisible(ws[..i]) <= n
            && lines[1 + CountVisible(ws[..i])] == "Du kannst dich zwischen " + ws[i].from + " - " + ws[i].to + " Verbinden")
      && lines[n + 1] == "Verbindung Heute Möglich: " + (if values[TimelimitKey].b then "Ja" else "Nein")
      && lines[n + 2] == "Letztes Update: " + values[TimestampKey].s
  {
    var ws := Windows(values);
    VisibleLinesInOrder(ws);
    HoverSplit(values);
  }

  /** The hover text's lines in terms of the reference list of window lines. */
  lemma {:induction false} HoverSplit(values: Values)
    requires Populated(values) && OneLineFields(values)
    ensures SplitLines(Hover(values)) ==
      ["Verbleibende Zeit: " + ShownRemaining(values)]
      + VisibleLines(Windows(values))
      + ["Verbindung Heute Möglich: " + ConnectionPossible(values), "Letztes Update: " + values[TimestampKey].s]
  {
    var ws := Windows(values);
    var visible := VisibleLines(ws);
    WindowTextTerminated(ws);
    forall k | 0 <= k < |visible|
      ensures NoNewline(visible[k])
    {
      VisibleLineOneLine(ws, k);
    }
    FixedLinesOneLine(values);
    HoverShape(values);
    LinesOf("Verbleibende Zeit: " + ShownRemaining(values), visible,
      "Verbindung Heute Möglich: " + ConnectionPossible(values), "Letztes Update: " + values[TimestampKey].s);
  }

  lemma {:induction false} FixedLinesOneLine(values: Values)
    requires Populated(values) && OneLineFields(values)
    ensures NoNewline("Verbleibende Zeit: " + ShownRemaining(values))
    ensures NoNewline("Verbindung Heute Möglich: " + ConnectionPossible(values))
    ensures NoNewline("Letztes Update: " + values[TimestampKey].s)
  {
  }

  /** Splitting text laid out like the hover text gives back its lines. */
  lemma {:induction false} LinesOf(first: string, visible: seq<string>, possible: string, last: string)
    requires NoNewline(first) && NoNewline(possible) && NoNewline(last)
    requires forall k :: 0 <= k < |visible| ==> NoNewline(visible[k])
    ensures SplitLines(first + "\n" + (Terminated(visible) + (possible + "\n" + last)))
      == [first] + visible + [possible, last]
  {
    SplitOneLine(last);
    SplitFirstLine(possible, last);
    SplitTerminated(visible, possible + "\n" + last);
    SplitFirstLine(first, Terminated(visible) + (possible + "\n" + last));
  }

  /** A window line is a single line when the window's times are. */
  lemma {:induction false} VisibleLineOneLine(items: seq<Field>, k: nat)
    requires forall j :: 0 <= j < |items| ==> items[j].FromTo? && NoNewline(items[j].from) && NoNewline(items[j].to)
    requires k < |VisibleLines(items)|
    ensures NoNewline(VisibleLines(items)[k])
    decreases |items|
  {
    var head := if items[0].displayed then [WindowLine(items[0])] else [];
    if k < |head| {
      assert NoNewline(WindowLine(items[0]));
    } else {
      VisibleLineOneLine(items[1..], k - |head|);
    }
  }
}
