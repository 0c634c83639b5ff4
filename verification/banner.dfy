/**
 `_clean_message` (speedport_Time.py:68-76): the `#`-framed banner the
 program writes to its log when it starts, restarts and exits. The frame's
 inner width is the longest line plus a margin of four, but never less than
 thirty; each line is centred in it the way Python's `^` format does.
 */
module Banner {
  import opened Wrappers
  import opened Text

  const Margin := 4
  const MinInnerWidth := 30

  /** `len(max(message, key=len))`: the length of a longest line. */
  function LongestLength(message: seq<string>): (n: nat)
    requires |message| > 0
    ensures forall i :: 0 <= i < |message| ==> |message[i]| <= n
    ensures exists i :: 0 <= i < |message| && |message[i]| == n
  {
    if |message| == 1 then |message[0]|
    else
      var rest := LongestLength(message[1..]);
      assert forall i :: 1 <= i < |message| ==> message[i] == message[1..][i - 1];
      if |message[0]| >= rest then |message[0]| else rest
  }

  /** The inner width of the frame. */
  function InnerWidth(message: seq<string>): (w: nat)
    requires |message| > 0
    ensures w >= MinInnerWidth
    ensures forall i :: 0 <= i < |message| ==> |message[i]| + Margin <= w
    ensures w == MinInnerWidth || exists i :: 0 <= i < |message| && |message[i]| + Margin == w
  {
    var length := LongestLength(message) + Margin;
    if length < MinInnerWidth then MinInnerWidth else length
  }

  /**
   Python's `f"{line:^{width}}"`: a line shorter than `width` is padded
   with spaces to exactly `width`, half the padding (rounded down) on the
   left and the rest on the right; a longer line is left as it is.
   */
  function Center(line: string, width: nat): (r: string)
    ensures |r| == if |line| < width then width else |line|
    ensures var left := (|r| - |line|) / 2;
      && r[left..left + |line|] == line
      && (forall k :: 0 <= k < left ==> r[k] == ' ')
      && (forall k :: left + |line| <= k < |r| ==> r[k] == ' ')
    ensures var left := (|r| - |line|) / 2;
      var right := |r| - |line| - left;
      left <= right <= left + 1
  {
    if |line| >= width then line
    else
      var left := (width - |line|) / 2;
      Repeat(' ', left) + line + Repeat(' ', width - |line| - left)
  }

  /** The top and bottom line of the frame. */
  function Border(width: nat): string {
    Repeat('#', width + 2)
  }

  /** One framed line, `#{line:^{width}}#`. */
  function Row(line: string, width: nat): (r: string)
    requires |line| < width
    ensures |r| == width + 2
    ensures r[0] == '#' && r[|r| - 1] == '#'
    ensures var left := (width - |line|) / 2;
      && r[1 + left..1 + left + |line|] == line
      && forall k :: 1 <= k < |r| - 1 && !(1 + left <= k < 1 + left + |line|) ==> r[k] == ' '
  {
    "#" + Center(line, width) + "#"
  }

  /** The framed lines of the whole message, in order. */
  function Rows(message: seq<string>, width: nat): (rows: seq<string>)
    requires forall i :: 0 <= i < |message| ==> |message[i]| < width
    ensures |rows| == |message|
    ensures forall i :: 0 <= i < |message| ==> rows[i] == Row(message[i], width)
  {
    seq(|message|, i requires 0 <= i < |message| => Row(message[i], width))
  }

  /**
   The banner text, or None where Python's `max` raises `ValueError`
   because the message has no lines.
   */
  function CleanMessage(message: seq<string>): (r: Option<string>)
    ensures r.Some? <==> |message| > 0
  {
    if |message| == 0 then None
    else
      var width := InnerWidth(message);
      Some("\n" + Border(width) + "\n" + Terminated(Rows(message, width)) + Border(width) + "\n")
  }

  /** A centred line breaks only where the line itself does. */
  lemma {:induction false} CenterOneLine(line: string, width: nat)
    requires NoNewline(line)
    ensures NoNewline(Center(line, width))
  {
    var r := Center(line, width);
    var left := (|r| - |line|) / 2;
    forall k | 0 <= k < |r|
      ensures r[k] != '\n'
    {
      if left <= k < left + |line| {
        assert r[k] == r[left..left + |line|][k - left] == line[k - left];
      }
    }
  }

  lemma {:induction false} RowOneLine(line: string, width: nat)
    requires |line| < width && NoNewline(line)
    ensures NoNewline(Row(line, width))
  {
    CenterOneLine(line, width);
    var r := Row(line, width);
    assert forall k :: 1 <= k < |r| - 1 ==> r[k] == Center(line, width)[k - 1];
  }

  /** The framed text, regrouped line by line. */
  lemma {:induction false} FrameShape(border: string, body: string)
    ensures "\n" + border + "\n" + body + border + "\n" == "" + "\n" + (border + "\n" + (body + (border + "\n" + "")))
  {
  }

  /** Splitting a framed text gives back its pieces. */
  lemma {:induction false} FrameLines(border: string, rows: seq<string>)
    requires NoNewline(border)
    requires forall i :: 0 <= i < |rows| ==> NoNewline(rows[i])
    ensures SplitLines("\n" + border + "\n" + Terminated(rows) + border + "\n") == [""] + [border] + rows + [border, ""]
  {
    var tail := border + "\n" + "";
    SplitOneLine("");
    SplitFirstLine(border, "");
    var body := Terminated(rows) + tail;
    SplitTerminated(rows, tail);
    var upper := border + "\n" + body;
    SplitFirstLine(border, body);
    SplitFirstLine("", upper);
    FrameShape(border, Terminated(rows));
  }

  /**
   Read line by line, the banner is an empty line, the border, one framed
   line per message line in order, the border again, and the empty piece
   after the final line break: `len(message) + 2` non-empty lines, each
   `width + 2` characters wide.
   */
  lemma {:induction false} BannerLines(message: seq<string>)
    requires |message| > 0
    requires forall i :: 0 <= i < |message| ==> NoNewline(message[i])
    ensures var width := InnerWidth(message);
      var lines := SplitLines(CleanMessage(message).value);
      && |lines| == |message| + 4
      && lines[0] == "" && lines[|lines| - 1] == ""
      && lines[1] == Border(width) && lines[|message| + 2] == Border(width)
      && (forall i :: 0 <= i < |message| ==> lines[i + 2] == Row(message[i], width))
      && (forall i :: 1 <= i <= |message| + 2 ==> |lines[i]| == width + 2 && lines[i] != "")
  {
    var width := InnerWidth(message);
    var rows := Rows(message, width);
    var border := Border(width);
    BannerSplit(message);
    var lines := SplitLines(CleanMessage(message).value);
    FrameIndexes(lines, border, rows);
    forall i | 1 <= i <= |message| + 2
      ensures |lines[i]| == width + 2 && lines[i] != ""
    {
      if 2 <= i < |message| + 2 {
        assert lines[i] == Row(message[i - 2], width);
      }
    }
  }

  /** Where the border and the rows sit in a framed list of lines. */
  lemma FrameIndexes(lines: seq<string>, border: string, rows: seq<string>)
    requires lines == [""] + [border] + rows + [border, ""]
    ensures |lines| == |rows| + 4
    ensures lines[0] == "" && lines[|lines| - 1] == ""
    ensures lines[1] == border && lines[|rows| + 2] == border
    ensures forall i :: 0 <= i < |rows| ==> lines[i + 2] == rows[i]
  {
  }

  /** The banner's lines in terms of the border and the framed rows. */
  lemma {:induction false} BannerSplit(message: seq<string>)
    requires |message| > 0
    requires forall i :: 0 <= i < |message| ==> NoNewline(message[i])
    ensures var width := InnerWidth(message);
      SplitLines(CleanMessage(message).value) == [""] + [Border(width)] + Rows(message, width) + [Border(width), ""]
  {
    var width := InnerWidth(message);
    var rows := Rows(message, width);
    forall i | 0 <= i < |rows|
      ensures NoNewline(rows[i])
    {
      RowOneLine(message[i], width);
    }
    FrameLines(Border(width), rows);
  }

  /**
   The start-up banner: "Starting..." has eleven characters, so the frame
   keeps its minimum width and the line gets nine spaces on the left and
   ten on the right.
   */
  lemma StartingBannerRow()
    ensures InnerWidth(["Starting..."]) == MinInnerWidth
    ensures Row("Starting...", MinInnerWidth) == "#" + Repeat(' ', 9) + "Starting..." + Repeat(' ', 10) + "#"
  {
    assert |"Starting..."| == 11;
    assert Center("Starting...", MinInnerWidth) == Repeat(' ', 9) + "Starting..." + Repeat(' ', 10);
  }
}
