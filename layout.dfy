/**
 * `_estimate_iframe_height_for` (main.py): how tall the box showing a
 * generated email is made, estimated from how many screen lines the email's
 * text lines wrap to on a desktop and on a narrow phone.
 */
module Layout {

  /** `EMAIL_BOX_DESKTOP_HEIGHT` */
  const EmailBoxDesktopHeight: nat := 300
  /** `EMAIL_LINE_PX_DESKTOP` and `EMAIL_LINE_PX_MOBILE` */
  const EmailLinePxDesktop: nat := 22
  const EmailLinePxMobile: nat := 26
  /** Characters per screen line on a desktop and on a narrow phone. */
  const WrapDesktop: nat := 90
  const WrapMobile: nat := 38
  /** Padding added above the lines on each layout, and the bottom buffer. */
  const PadDesktop: nat := 140
  const PadMobile: nat := 160
  const BottomBuffer: nat := 40
  /** The clamp bounds. */
  const MinHeight: nat := EmailBoxDesktopHeight + 80
  const MaxHeight: nat := 4000

  /** `math.ceil(a / b)` */
  function CeilDiv(a: nat, b: nat): (q: nat)
    requires b > 0
    ensures q * b >= a
    ensures q > 0 ==> (q - 1) * b < a
  {
    var q := (a + b - 1) / b;
    assert (a + b - 1) == q * b + (a + b - 1) % b;
    q
  }

  /** Screen lines taken by a text line of `len` characters at `wrap`
      characters per screen line. */
  function LineCost(len: nat, wrap: nat): (c: nat)
    requires wrap > 0
    ensures c >= 1
  {
    var l := if len > 1 then len else 1;
    var q := CeilDiv(l, wrap);
    if q > 1 then q else 1
  }

  /** Screen lines taken by all of `lines`, summed from the first. */
  function WrappedLines(lines: seq<string>, wrap: nat): nat
    requires wrap > 0
  {
    if lines == [] then 0
    else WrappedLines(lines[..|lines| - 1], wrap) + LineCost(|lines[|lines| - 1]|, wrap)
  }

  /** `text.splitlines() or [""]`: text without lines still counts as one
      empty line. */
  function Rows(lines: seq<string>): (r: seq<string>)
    ensures |r| >= 1
    ensures lines != [] ==> r == lines
  {
    if lines == [] then [""] else lines
  }

  function Clamp(est: int): (h: int)
    ensures MinHeight <= h <= MaxHeight
    ensures MinHeight <= est <= MaxHeight ==> h == est
  {
    if est < MinHeight then MinHeight else if est > MaxHeight then MaxHeight else est
  }

  /** The estimate for the email whose text has lines `lines`: the larger of
      the desktop and the mobile estimate, plus the buffer, clamped. */
  function FrameHeight(lines: seq<string>): (h: int)
    ensures MinHeight <= h <= MaxHeight
  {
    var rows := Rows(lines);
    var estD := PadDesktop + WrappedLines(rows, WrapDesktop) * EmailLinePxDesktop;
    var estM := PadMobile + WrappedLines(rows, WrapMobile) * EmailLinePxMobile;
    Clamp((if estD > estM then estD else estM) + BottomBuffer)
  }

  /** `_estimate_iframe_height_for(text)`, given `text.splitlines()`. */
  method EstimateIframeHeight(lines: seq<string>) returns (h: int)
    ensures h == FrameHeight(lines)
    ensures MinHeight <= h <= MaxHeight
  {
    var rows := lines;
    if rows == [] {
      rows := [""];
    }
    var linesD := 0;
    var linesM := 0;
    var i := 0;
    while i < |rows|
      invariant 0 <= i <= |rows|
      invariant linesD == WrappedLines(rows[..i], WrapDesktop)
      invariant linesM == WrappedLines(rows[..i], WrapMobile)
    {
      var len := |rows[i]|;
      var l := if len > 1 then len else 1;
      var d := (l + WrapDesktop - 1) / WrapDesktop;
      var m := (l + WrapMobile - 1) / WrapMobile;
      linesD := linesD + (if d > 1 then d else 1);
      linesM := linesM + (if m > 1 then m else 1);
      assert rows[..i + 1][..i] == rows[..i];
      i := i + 1;
    }
    assert rows[..i] == rows;
    var estD := PadDesktop + linesD * EmailLinePxDesktop;
    var estM := PadMobile + linesM * EmailLinePxMobile;
    var est := if estD > estM then estD else estM;
    est := est + BottomBuffer;
    h := if est < 4000 then est else 4000;
    if h < EmailBoxDesktopHeight + 80 {
      h := EmailBoxDesktopHeight + 80;
    }
  }

  /** Every line counts at least once, the empty ones included. */
  lemma {:induction false} WrappedLinesAtLeastCount(lines: seq<string>, wrap: nat)
    requires wrap > 0
    ensures WrappedLines(lines, wrap) >= |lines|
  {
    if lines != [] {
      WrappedLinesAtLeastCount(lines[..|lines| - 1], wrap);
    }
  }

  /** A line never takes fewer screen lines on the phone than on the
      desktop. */
  lemma MobileLineCostAtLeastDesktop(len: nat)
    ensures LineCost(len, WrapDesktop) <= LineCost(len, WrapMobile)
  {
    var l := if len > 1 then len else 1;
    var qd := CeilDiv(l, WrapDesktop);
    var qm := CeilDiv(l, WrapMobile);
    assert (qd - 1) * 90 < l <= qm * 38;
  }

  /** The phone layout wraps every text to at least as many screen lines as
      the desktop one. */
  lemma {:induction false} MobileWrapsMore(lines: seq<string>)
    ensures WrappedLines(lines, WrapDesktop) <= WrappedLines(lines, WrapMobile)
  {
    if lines != [] {
      MobileWrapsMore(lines[..|lines| - 1]);
      MobileLineCostAtLeastDesktop(|lines[|lines| - 1]|);
    }
  }

  /** The mobile estimate always exceeds the desktop one, so the height is
      the clamped mobile estimate plus the buffer. */
  lemma MobileDominates(lines: seq<string>)
    ensures WrappedLines(Rows(lines), WrapDesktop) <= WrappedLines(Rows(lines), WrapMobile)
    ensures FrameHeight(lines)
         == Clamp(PadMobile + BottomBuffer + WrappedLines(Rows(lines), WrapMobile) * EmailLinePxMobile)
  {
    MobileWrapsMore(Rows(lines));
  }

  /** An email with no lines gets the minimum height. */
  lemma EmptyTextHeight()
    ensures FrameHeight([]) == MinHeight
  {
    assert Rows([]) == [""];
    assert [""][..0] == [];
  }

  /** Up to six mobile lines fit the minimum height; from 147 on the height
      is capped; in between every mobile line adds its pixels. */
  lemma HeightByMobileLines(lines: seq<string>)
    ensures var m := WrappedLines(Rows(lines), WrapMobile);
      && (m <= 6 ==> FrameHeight(lines) == MinHeight)
      && (7 <= m <= 146 ==> FrameHeight(lines) == 200 + 26 * m)
      && (m >= 147 ==> FrameHeight(lines) == MaxHeight)
  {
    MobileDominates(lines);
  }

  /** One more line never makes the box shorter. */
  lemma ExtraLineNeverShrinks(lines: seq<string>, line: string)
    ensures FrameHeight(lines) <= FrameHeight(lines + [line])
  {
    var more := lines + [line];
    assert more[..|more| - 1] == lines;
    MobileDominates(lines);
    MobileDominates(more);
    if lines == [] {
      assert Rows(lines)[..0] == [];
      assert more[..0] == [];
      assert WrappedLines(Rows(lines), WrapMobile) == 1;
    }
  }
}
