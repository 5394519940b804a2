/**
 * The TV output driver of the sunxi display engine (drv_tv.c): the table of
 * supported video timings, the per-screen state (mode, enable, suspend) and
 * the entry points the display core calls on it.
 *
 * The numeric values of the disp_tv_mode enumeration come from a display
 * header that is not part of this model, so the NTSC and PAL mode numbers
 * and DISP_TV_MODE_NUM are given to the constructor.  The calls into the
 * low-level TV encoder, the clocks and the hot-plug thread are recorded in
 * `calls` instead of being performed.
 */
module DrvTv {
  import opened Common
  import Tve

  /** SCREEN_COUNT and DAC_COUNT of drv_tv.h. */
  const ScreenCount: nat := 2
  const DacCount: nat := 4

  /** One entry of video_timing (the trailing zero fields are left out). */
  datatype Timing = Timing(
    vic: nat, tvMode: nat, pixelClock: nat, avi: nat, x: nat, y: nat,
    hTotal: nat, hBackPorch: nat, hFrontPorch: nat, hSync: nat,
    vTotal: nat, vBackPorch: nat, vFrontPorch: nat, vSync: nat)

  /** video_timing: NTSC (720x480, 525 lines) then PAL (720x576, 625 lines), both at 27 MHz. */
  function VideoTimings(ntsc: nat, pal: nat): (t: seq<Timing>)
    ensures |t| == 2 && t[0].tvMode == ntsc && t[1].tvMode == pal
  {
    [Timing(0, ntsc, 27000000, 0, 720, 480, 858, 60, 16, 62, 525, 30, 9, 6),
     Timing(0, pal, 27000000, 0, 720, 576, 864, 68, 12, 64, 625, 39, 5, 5)]
  }

  /** The index of the first timing whose mode is `mode`, or -1. */
  function FirstMatch(timings: seq<Timing>, mode: int): (i: int)
    ensures -1 <= i < |timings|
    ensures i == -1 <==> forall j :: 0 <= j < |timings| ==> timings[j].tvMode != mode
    ensures i >= 0 ==> timings[i].tvMode == mode && forall j :: 0 <= j < i ==> timings[j].tvMode != mode
  {
    if |timings| == 0 then -1
    else if timings[0].tvMode == mode then 0
    else
      var k := FirstMatch(timings[1..], mode);
      if k == -1 then -1 else k + 1
  }

  /**
   * tv_get_video_info: the timings are scanned in order and the index of
   * the first one with the requested mode is returned, -1 when none has it.
   */
  method GetVideoInfo(timings: seq<Timing>, mode: int) returns (i: int)
    ensures i == FirstMatch(timings, mode)
  {
    i := 0;
    while i < |timings|
      invariant 0 <= i <= |timings|
      invariant forall j :: 0 <= j < i ==> timings[j].tvMode != mode
    {
      if mode == timings[i].tvMode {
        return i;
      }
      i := i + 1;
    }
    return -1;
  }

  /** In the NTSC/PAL table the NTSC mode is found at 0 and a distinct PAL mode at 1. */
  lemma VideoInfoOfTable(ntsc: nat, pal: nat, mode: int)
    ensures FirstMatch(VideoTimings(ntsc, pal), mode) ==
      if mode == ntsc then 0 else if mode == pal then 1 else -1
  {
    var t := VideoTimings(ntsc, pal);
    assert t[1..][0] == t[1];
    assert t[1..][1..] == [];
  }

  /** The state of one TV screen (tv_screen_t without its clock). */
  datatype Screen = Screen(tvMode: nat, sid: nat, caliOffset: nat, enable: nat, suspend: bool, used: bool)

  /** The dac_source setting of a DAC: composite video or another signal. */
  datatype DacSource = Composite | OtherSource(code: nat)

  /** What tv_get_dac_hpd reports for a screen in range. */
  datatype TvOutput = TvNone | TvCvbs

  /** The two clocks of a screen: the encoder's shared clock and the screen's own. */
  datatype TvClock = EncoderClk | ScreenClk(sel: nat)

  /** The calls into the encoder, the clocks and the hot-plug thread that the entry points make. */
  datatype HwCall =
    | SetTvMode(sel: nat, mode: nat, sid: nat)
    | Open(sel: nat)
    | Close(sel: nat)
    | DetectDisable(sel: nat)
    | ClkPrepareEnable(clk: TvClock)
    | LowInit(sel: nat, sid: nat, caliOffset: nat)
    | DetectEnable(sel: nat)

  /** A screen after tv_enable: a disabled screen gets enable 1, an enabled one is unchanged. */
  function Enabled(s: Screen): Screen
  {
    if s.enable == 0 then s.(enable := 1) else s
  }

  /** What tv_enable calls: the mode and open calls, only when the screen was disabled. */
  function EnableCalls(sel: nat, s: Screen): seq<HwCall>
  {
    if s.enable == 0 then [SetTvMode(sel, s.tvMode, s.sid), Open(sel)] else []
  }

  /** A screen after tv_disable. */
  function Disabled(s: Screen): Screen
  {
    s.(enable := 0)
  }

  /** What tv_disable calls: close, only when the screen was enabled. */
  function DisableCalls(sel: nat, s: Screen): seq<HwCall>
  {
    if s.enable != 0 then [Close(sel)] else []
  }

  /** A screen after tv_suspend: a used, running screen becomes suspended. */
  function Suspended(s: Screen): Screen
  {
    if s.used && !s.suspend then s.(suspend := true) else s
  }

  /**
   * tve_clk_disable: it calls clk_prepare_enable on the screen's clock and
   * then on the encoder's clock, so both stay running.
   */
  function TveClkDisableCalls(sel: nat): seq<HwCall>
  {
    [ClkPrepareEnable(ScreenClk(sel)), ClkPrepareEnable(EncoderClk)]
  }

  /** tve_clk_enable: clk_prepare_enable on the encoder's clock, then on the screen's. */
  function TveClkEnableCalls(sel: nat): seq<HwCall>
  {
    [ClkPrepareEnable(EncoderClk), ClkPrepareEnable(ScreenClk(sel))]
  }

  /** How many times `calls` prepare-enables the clock `c`. */
  function EnableCount(calls: seq<HwCall>, c: TvClock): nat
  {
    if |calls| == 0 then 0
    else EnableCount(calls[..|calls| - 1], c) + if calls[|calls| - 1] == ClkPrepareEnable(c) then 1 else 0
  }

  /** What tv_suspend calls when it acts: stop hot-plug detection, then tve_clk_disable. */
  function SuspendCalls(sel: nat, s: Screen): seq<HwCall>
  {
    if s.used && !s.suspend then [DetectDisable(sel)] + TveClkDisableCalls(sel) else []
  }

  /** A screen after tv_resume: a used, suspended screen runs again. */
  function Resumed(s: Screen): Screen
  {
    if s.used && s.suspend then s.(suspend := false) else s
  }

  /** What tv_resume calls when it acts: tve_clk_enable, the encoder's init with the screen's sid and offset, hot-plug detection. */
  function ResumeCalls(sel: nat, s: Screen): seq<HwCall>
  {
    if s.used && s.suspend then TveClkEnableCalls(sel) + [LowInit(sel, s.sid, s.caliOffset), DetectEnable(sel)] else []
  }

  /**
   * tv_enable and tv_disable act only on a change of state: a second
   * call changes nothing and calls nothing, and between them only the
   * enable flag changes.
   */
  lemma EnableDisableIdempotent(sel: nat, s: Screen)
    ensures Enabled(Enabled(s)) == Enabled(s) && EnableCalls(sel, Enabled(s)) == []
    ensures Disabled(Disabled(s)) == Disabled(s) && DisableCalls(sel, Disabled(s)) == []
    ensures Enabled(s).enable != 0 && Disabled(s).enable == 0
    ensures Disabled(Enabled(s)) == Disabled(s) && Enabled(Disabled(s)).enable == 1
    ensures |EnableCalls(sel, s)| + |DisableCalls(sel, Enabled(s))| >= 1
  {
  }

  /**
   * tv_suspend and tv_resume toggle `suspend` only on a used screen: a
   * used running screen is suspended and resumed back to itself, with
   * detection stopped, tve_clk_disable, tve_clk_enable, the encoder's init
   * and detection restarted; on an unused screen both do nothing.
   */
  lemma SuspendResumeRoundTrip(sel: nat, s: Screen)
    ensures s.used && !s.suspend ==>
      Suspended(s).suspend && Resumed(Suspended(s)) == s
      && SuspendCalls(sel, s) + ResumeCalls(sel, Suspended(s)) ==
        [DetectDisable(sel), ClkPrepareEnable(ScreenClk(sel)), ClkPrepareEnable(EncoderClk),
         ClkPrepareEnable(EncoderClk), ClkPrepareEnable(ScreenClk(sel)), LowInit(sel, s.sid, s.caliOffset), DetectEnable(sel)]
    ensures !s.used ==> Suspended(s) == s && Resumed(s) == s && SuspendCalls(sel, s) == [] && ResumeCalls(sel, s) == []
    ensures Suspended(Suspended(s)) == Suspended(s) && SuspendCalls(sel, Suspended(s)) == []
    ensures Resumed(Resumed(s)) == Resumed(s) && ResumeCalls(sel, Resumed(s)) == []
  {
  }

  /** Counting prepare-enables distributes over concatenation. */
  lemma {:induction false} EnableCountAppend(a: seq<HwCall>, b: seq<HwCall>, c: TvClock)
    ensures EnableCount(a + b, c) == EnableCount(a, c) + EnableCount(b, c)
    decreases |b|
  {
    if |b| == 0 {
      assert a + b == a;
    } else {
      assert (a + b)[..|a + b| - 1] == a + b[..|b| - 1];
      EnableCountAppend(a, b[..|b| - 1], c);
    }
  }

  /**
   * Because tve_clk_disable prepare-enables the clocks instead of
   * releasing them, a suspend and resume of a used running screen leaves
   * both of its clocks with two more enable references, and no other
   * clock is touched.
   */
  lemma SuspendResumeClockReferences(sel: nat, s: Screen, c: TvClock)
    requires s.used && !s.suspend
    ensures EnableCount(SuspendCalls(sel, s) + ResumeCalls(sel, Suspended(s)), c)
      == if c == EncoderClk || c == ScreenClk(sel) then 2 else 0
  {
    var d := TveClkDisableCalls(sel);
    var e := TveClkEnableCalls(sel);
    var tail := [LowInit(sel, s.sid, s.caliOffset), DetectEnable(sel)];
    assert SuspendCalls(sel, s) + ResumeCalls(sel, Suspended(s)) == [DetectDisable(sel)] + d + (e + tail);
    EnableCountAppend([DetectDisable(sel)] + d, e + tail, c);
    EnableCountAppend([DetectDisable(sel)], d, c);
    EnableCountAppend(e, tail, c);
    assert [DetectDisable(sel)] == [] + [DetectDisable(sel)];
    assert d[..1] == [ClkPrepareEnable(ScreenClk(sel))] && e[..1] == [ClkPrepareEnable(EncoderClk)];
    assert tail[..1] == [LowInit(sel, s.sid, s.caliOffset)];
  }

  /**
   * tv_get_dac_hpd for a screen in range: the DAC status is taken as
   * unconnected when it is above 1; CVBS is reported exactly when DAC 0
   * carries composite video and the status is 1.
   */
  function DacHpd(dac0: DacSource, status: int): (o: TvOutput)
    ensures o == TvCvbs <==> dac0 == Composite && status == 1
  {
    var dac := if status > 1 then 0 else status;
    if dac0 == Composite && dac == 1 then TvCvbs else TvNone
  }

  /** The global tv_info_t: the screens, how many of them exist, the DAC sources, and the timing table. */
  class TvInfo {
    var screens: seq<Screen>
    var tvNumber: nat
    var dacSource: seq<DacSource>
    var calls: seq<HwCall>
    const timings: seq<Timing>
    const modeNum: nat

    /** Only the first `tvNumber` of the SCREEN_COUNT screens exist. */
    ghost predicate Valid()
      reads this
    {
      |screens| == ScreenCount && tvNumber <= ScreenCount && |dacSource| == DacCount
    }

    /** The driver state with the NTSC/PAL table and the given screens. */
    constructor(ntsc: nat, pal: nat, modeNum0: nat, screens0: seq<Screen>, tvNumber0: nat, dacSource0: seq<DacSource>)
      requires |screens0| == ScreenCount && tvNumber0 <= ScreenCount && |dacSource0| == DacCount
      ensures Valid()
      ensures screens == screens0 && tvNumber == tvNumber0 && dacSource == dacSource0 && calls == []
      ensures timings == VideoTimings(ntsc, pal) && modeNum == modeNum0
    {
      screens := screens0;
      tvNumber := tvNumber0;
      dacSource := dacSource0;
      calls := [];
      timings := VideoTimings(ntsc, pal);
      modeNum := modeNum0;
    }

    /** tv_get_mode: -1 for a screen out of range, else the screen's mode. */
    function GetMode(sel: nat): (m: int)
      reads this
      requires Valid()
      ensures sel >= tvNumber ==> m == -1
      ensures sel < tvNumber ==> m == screens[sel].tvMode && m >= 0
    {
      if sel >= tvNumber then -1 else screens[sel].tvMode
    }

    /**
     * tv_set_mode: a mode of at least DISP_TV_MODE_NUM or a screen out of
     * range gives -1 and stores nothing; otherwise the screen's mode is
     * replaced and tv_get_mode then returns it.
     */
    method SetMode(sel: nat, mode: nat) returns (ret: int)
      requires Valid()
      modifies this
      ensures Valid() && tvNumber == old(tvNumber) && dacSource == old(dacSource) && calls == old(calls)
      ensures mode >= modeNum || sel >= tvNumber ==> ret == -1 && screens == old(screens)
      ensures mode < modeNum && sel < tvNumber ==>
        ret == 0 && screens == old(screens)[sel := old(screens)[sel].(tvMode := mode)] && GetMode(sel) == mode
    {
      if mode >= modeNum {
        return -1;
      }
      if sel >= tvNumber {
        return -1;
      }
      screens := screens[sel := screens[sel].(tvMode := mode)];
      ret := 0;
    }

    /**
     * tv_get_dac_hpd: -1 for a screen out of range; otherwise the DAC
     * status read from the encoder's register 0x038 decides as in DacHpd.
     */
    function GetDacHpd(sel: nat, statusReg: nat): (r: Option<TvOutput>)
      reads this
      requires Valid()
      ensures r.None? <==> sel >= tvNumber
      ensures r.Some? ==> (r.value == TvCvbs <==> dacSource[0] == Composite && Tve.DacStatus(statusReg) == 1)
    {
      if sel >= tvNumber then None else Some(DacHpd(dacSource[0], Tve.DacStatus(statusReg)))
    }

    /**
     * tv_mode_support: -1 for a screen out of range, else 1 when some
     * timing has the mode and 0 when none has.
     */
    method ModeSupport(sel: nat, mode: nat) returns (ret: int)
      requires Valid()
      ensures sel >= tvNumber ==> ret == -1
      ensures sel < tvNumber ==> (ret == 1 <==> FirstMatch(timings, mode) >= 0) && (ret == 0 || ret == 1)
    {
      if sel >= tvNumber {
        return -1;
      }
      var i := 0;
      while i < |timings|
        invariant 0 <= i <= |timings|
        invariant forall j :: 0 <= j < i ==> timings[j].tvMode != mode
      {
        if timings[i].tvMode == mode {
          return 1;
        }
        i := i + 1;
      }
      return 0;
    }

    /**
     * tv_get_video_timing_info: -1 for a screen out of range; otherwise 0
     * with the first timing of the screen's mode, or -1 when the table
     * has none.
     */
    method GetVideoTimingInfo(sel: nat) returns (ret: int, info: Option<Timing>)
      requires Valid()
      ensures sel >= tvNumber ==> ret == -1 && info.None?
      ensures sel < tvNumber ==>
        var k := FirstMatch(timings, screens[sel].tvMode);
        (ret == 0 <==> k >= 0) && (ret == 0 || ret == -1)
        && (k >= 0 ==> info == Some(timings[k])) && (k < 0 ==> info.None?)
    {
      info := None;
      ret := -1;
      if sel >= tvNumber {
        return;
      }
      var i := 0;
      while i < |timings|
        invariant 0 <= i <= |timings| && ret == -1 && info.None?
        invariant forall j :: 0 <= j < i ==> timings[j].tvMode != screens[sel].tvMode
      {
        if timings[i].tvMode == screens[sel].tvMode {
          info := Some(timings[i]);
          ret := 0;
          break;
        }
        i := i + 1;
      }
    }

    /** tv_enable: 0 for a screen in range, which is enabled as in Enabled/EnableCalls. */
    method Enable(sel: nat) returns (ret: int)
      requires Valid()
      modifies this
      ensures Valid() && tvNumber == old(tvNumber) && dacSource == old(dacSource)
      ensures sel >= tvNumber ==> ret == -1 && screens == old(screens) && calls == old(calls)
      ensures sel < tvNumber ==>
        (ret == 0 && screens == old(screens)[sel := Enabled(old(screens)[sel])]
         && calls == old(calls) + EnableCalls(sel, old(screens)[sel]))
    {
      if sel >= tvNumber {
        return -1;
      }
      var s := screens[sel];
      if s.enable == 0 {
        calls := calls + [SetTvMode(sel, s.tvMode, s.sid)];
        calls := calls + [Open(sel)];
        screens := screens[sel := s.(enable := 1)];
      }
      ret := 0;
    }

    /** tv_disable: 0 for a screen in range, which is disabled as in Disabled/DisableCalls. */
    method Disable(sel: nat) returns (ret: int)
      requires Valid()
      modifies this
      ensures Valid() && tvNumber == old(tvNumber) && dacSource == old(dacSource)
      ensures sel >= tvNumber ==> ret == -1 && screens == old(screens) && calls == old(calls)
      ensures sel < tvNumber ==>
        (ret == 0 && screens == old(screens)[sel := Disabled(old(screens)[sel])]
         && calls == old(calls) + DisableCalls(sel, old(screens)[sel]))
    {
      if sel >= tvNumber {
        return -1;
      }
      var s := screens[sel];
      if s.enable != 0 {
        calls := calls + [Close(sel)];
        screens := screens[sel := s.(enable := 0)];
      }
      ret := 0;
    }

    /** tv_suspend: 0 for a screen in range, which is suspended as in Suspended/SuspendCalls. */
    method Suspend(sel: nat) returns (ret: int)
      requires Valid()
      modifies this
      ensures Valid() && tvNumber == old(tvNumber) && dacSource == old(dacSource)
      ensures sel >= tvNumber ==> ret == -1 && screens == old(screens) && calls == old(calls)
      ensures sel < tvNumber ==>
        (ret == 0 && screens == old(screens)[sel := Suspended(old(screens)[sel])]
         && calls == old(calls) + SuspendCalls(sel, old(screens)[sel]))
    {
      if sel >= tvNumber {
        return -1;
      }
      var s := screens[sel];
      if s.used && !s.suspend {
        screens := screens[sel := s.(suspend := true)];
        calls := calls + [DetectDisable(sel)] + TveClkDisableCalls(sel);
      }
      ret := 0;
    }

    /** tv_resume: 0 for a screen in range, which is resumed as in Resumed/ResumeCalls. */
    method Resume(sel: nat) returns (ret: int)
      requires Valid()
      modifies this
      ensures Valid() && tvNumber == old(tvNumber) && dacSource == old(dacSource)
      ensures sel >= tvNumber ==> ret == -1 && screens == old(screens) && calls == old(calls)
      ensures sel < tvNumber ==>
        (ret == 0 && screens == old(screens)[sel := Resumed(old(screens)[sel])]
         && calls == old(calls) + ResumeCalls(sel, old(screens)[sel]))
    {
      if sel >= tvNumber {
        return -1;
      }
      var s := screens[sel];
      if s.used && s.suspend {
        screens := screens[sel := s.(suspend := false)];
        calls := calls + TveClkEnableCalls(sel) + [LowInit(sel, s.sid, s.caliOffset), DetectEnable(sel)];
      }
      ret := 0;
    }
  }
}
