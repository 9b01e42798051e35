/**
 * The CFastLED facade of FastLED.cpp.hpp: the registry of LED controllers,
 * the refresh-rate floor, the frame counter, and the three-pass show
 * pipeline. The controllers' drivers are opaque: a controller is a record
 * of the settings the facade reads and writes, and every call the facade
 * makes on a driver is recorded as an event in a ghost trace. Clock
 * readings and the tokens drivers hand back are parameters.
 */
module Engine {
  import opened Lib8tion
  import opened Colour

  /** MAX_CLED_CONTROLLERS outside AVR: the size of the token array, and the most controllers a frame visits. */
  const MaxControllers := 64

  datatype Option<T> = None | Some(value: T)

  /** The opaque per-frame handle beginShowLeds returns (a `void*`); Null is nullptr. */
  datatype Token = Null | Handle(id: nat)

  /** What the facade knows of one registered controller. */
  datatype Controller = Controller(
    enabled: bool,
    leds: int,          // where its LED buffer starts
    size: int,          // how many LEDs it drives
    dither: u8,
    temperature: Rgb,
    correction: Rgb,
    maxRefresh: u16)    // getMaxRefreshRate()

  /** The token controller k's driver returns from beginShowLeds in the frame at hand. */
  type Driver = (nat, Controller) -> Token

  /** A power-limiting function: the requested scale and the opaque data give the scale to use. */
  type PowerFunc = (u8, u32) -> u8

  /** The calls the facade makes, in the order it makes them. */
  datatype Event =
    | BeginFrame                                   // EngineEvents::onBeginFrame
    | Begin(pos: nat, size: int, token: Token)     // beginShowLeds(size) returned token
    | Emit(pos: nat, scale: u8, dither: u8)        // showLedsInternal(scale), with the dither mode set at that time
    | EmitColor(pos: nat, color: Rgb, scale: u8, dither: u8)  // showColorInternal(color, scale)
    | End(pos: nat, token: Token)                  // endShowLeds(token)
    | ClearLeds(pos: nat)                          // clearLedDataInternal
    | Init(pos: nat)                               // init
    | StripAdded(pos: nat, count: int)             // EngineEvents::onStripAdded
    | EndFrame                                     // EngineEvents::onEndFrame
    | EndShowLeds                                  // EngineEvents::onEndShowLeds

  // ---------------------------------------------------------------------
  // Refresh-rate floor

  /** The new m_nMinMicros after setMaxRefreshRate(refresh, constrain). */
  function RefreshFloor(floor: u32, refresh: u16, constrain: bool): u32 {
    if constrain then
      if refresh > 0 then (if 1000000 / refresh > floor then 1000000 / refresh else floor) else floor
    else if refresh > 0 then 1000000 / refresh
    else 0
  }

  /**
   * The constrained form never lowers the floor and, for a positive rate,
   * raises it to at least that rate's frame period; the unconstrained form
   * sets the period outright (0 for rate 0), whatever the floor was.
   */
  lemma RefreshFloorMeaning(floor: u32, refresh: u16)
    ensures RefreshFloor(floor, refresh, true) >= floor
    ensures refresh > 0 ==> RefreshFloor(floor, refresh, true) >= 1000000 / refresh
    ensures RefreshFloor(floor, refresh, true) == floor || RefreshFloor(floor, refresh, true) == 1000000 / refresh
    ensures refresh == 0 ==> RefreshFloor(floor, refresh, true) == floor && RefreshFloor(floor, refresh, false) == 0
    ensures refresh > 0 ==> RefreshFloor(floor, refresh, false) == 1000000 / refresh
  {
  }

  /** The frame period of a refresh rate, 0 for no limit. */
  function Period(refresh: u16): u32 {
    if refresh > 0 then 1000000 / refresh else 0
  }

  /** The floor after constrained calls with the rates rs, in order. */
  function FloorAfter(floor: u32, rs: seq<u16>): u32
    decreases |rs|
  {
    if rs == [] then floor else FloorAfter(RefreshFloor(floor, rs[0], true), rs[1..])
  }

  /**
   * Registering controllers one after another leaves the floor at the
   * longest frame period among them (or where it was, if that is longer):
   * the slowest controller sets the pace.
   */
  lemma {:induction false} FloorIsSlowest(floor: u32, rs: seq<u16>)
    ensures FloorAfter(floor, rs) >= floor
    ensures forall i :: 0 <= i < |rs| ==> FloorAfter(floor, rs) >= Period(rs[i])
    ensures FloorAfter(floor, rs) == floor || exists i :: 0 <= i < |rs| && FloorAfter(floor, rs) == Period(rs[i])
    decreases |rs|
  {
    if rs != [] {
      var f := RefreshFloor(floor, rs[0], true);
      FloorIsSlowest(f, rs[1..]);
      forall i | 0 <= i < |rs|
        ensures FloorAfter(floor, rs) >= Period(rs[i])
      {
        if i > 0 {
          assert rs[i] == rs[1..][i - 1];
        }
      }
      if FloorAfter(floor, rs) != floor {
        if FloorAfter(floor, rs) == f {
          assert f == Period(rs[0]);
        } else {
          var i :| 0 <= i < |rs[1..]| && FloorAfter(f, rs[1..]) == Period(rs[1..][i]);
          assert FloorAfter(floor, rs) == Period(rs[i + 1]);
        }
      }
    }
  }

  // ---------------------------------------------------------------------
  // addLeds

  /** Where addLeds starts the controller in the buffer: the first argument when a count follows it. */
  function LedOffset(nLedsOrOffset: int, nLedsIfOffset: int): int {
    if nLedsIfOffset > 0 then nLedsOrOffset else 0
  }

  /** How many LEDs addLeds gives the controller: the second argument when positive, else the first. */
  function LedCount(nLedsOrOffset: int, nLedsIfOffset: int): int {
    if nLedsIfOffset > 0 then nLedsIfOffset else nLedsOrOffset
  }

  /** The count addLeds reports to onStripAdded: the first argument minus the offset. */
  function ReportedCount(nLedsOrOffset: int, nLedsIfOffset: int): int {
    nLedsOrOffset - LedOffset(nLedsOrOffset, nLedsIfOffset)
  }

  /**
   * The two forms of addLeds: (data, n) drives n LEDs from data; (data,
   * offset, n) with n > 0 drives n LEDs from data + offset. The reported
   * count matches the driven count only in the first form: in the second
   * it is always 0.
   */
  lemma AddLedsForms(a: int, b: int)
    ensures b > 0 ==> LedOffset(a, b) == a && LedCount(a, b) == b && ReportedCount(a, b) == 0
    ensures b <= 0 ==> LedOffset(a, b) == 0 && LedCount(a, b) == a && ReportedCount(a, b) == a
    ensures ReportedCount(a, b) == LedCount(a, b) <==> b <= 0
  {
  }

  // ---------------------------------------------------------------------
  // Frame counter

  /** m_nFPS together with countFPS's static counters br and lastframe. */
  datatype Fps = Fps(frames: int, lastFrame: u32, fps: u16)

  /** countFPS(nFrames) at millisecond clock now. */
  function CountFps(c: Fps, nFrames: int, now: u32): Fps {
    if c.frames >= nFrames then
      var elapsed := U32(now - c.lastFrame);
      var d := if elapsed == 0 then 1 else elapsed;
      Fps(0, now, U16(U32((c.frames + 1) * 1000) / d))
    else
      c.(frames := c.frames + 1)
  }

  /**
   * The estimate is recomputed only when the counter had reached nFrames
   * (the check comes before the increment, so nFrames + 1 frames are
   * counted); the counter then restarts at 0 and the mark moves to now.
   * Otherwise only the counter moves. A zero elapsed time counts as 1 ms.
   */
  lemma CountFpsMeaning(c: Fps, nFrames: int, now: u32)
    ensures c.frames < nFrames ==> CountFps(c, nFrames, now) == c.(frames := c.frames + 1)
    ensures CountFps(c, nFrames, now).fps != c.fps ==> c.frames >= nFrames
    ensures c.frames >= nFrames ==> CountFps(c, nFrames, now).frames == 0 && CountFps(c, nFrames, now).lastFrame == now
    ensures c.frames >= nFrames && now == c.lastFrame ==> CountFps(c, nFrames, now).fps == U16(U32((c.frames + 1) * 1000))
    ensures c.frames >= nFrames && now != c.lastFrame ==> CountFps(c, nFrames, now).fps == U16(U32((c.frames + 1) * 1000) / U32(now - c.lastFrame))
  {
  }

  /** Counting from 0, calls 1 .. nFrames only count, and call nFrames + 1 computes the estimate. */
  function CountFpsTimes(c: Fps, nFrames: int, now: u32, times: nat): Fps
    decreases times
  {
    if times == 0 then c else CountFpsTimes(CountFps(c, nFrames, now), nFrames, now, times - 1)
  }

  lemma {:induction false} CountFpsPeriod(c: Fps, nFrames: nat, now: u32, times: nat)
    requires 0 <= c.frames && c.frames + times <= nFrames
    ensures CountFpsTimes(c, nFrames, now, times) == c.(frames := c.frames + times)
    decreases times
  {
    if times > 0 {
      CountFpsPeriod(c.(frames := c.frames + 1), nFrames, now, times - 1);
    }
  }

  // ---------------------------------------------------------------------
  // The show pipeline as functions of the registry

  /** How many controllers a pass visits: the list, cut at MAX_CLED_CONTROLLERS. */
  function Visited(cs: seq<Controller>): nat {
    if |cs| < MaxControllers then |cs| else MaxControllers
  }

  /** The scale after the power function, if one is installed. */
  function PowerScale(scale: u8, power: Option<PowerFunc>, data: u32): u8 {
    match power
    case None => scale
    case Some(f) => f(scale, data)
  }

  /** The token pass A stores at position k: the driver's for an enabled controller, null otherwise. */
  function Slot(cs: seq<Controller>, begin: Driver, k: nat): Token
    requires k < |cs|
  {
    if cs[k].enabled then begin(k, cs[k]) else Null
  }

  /** The controllers with dither forced off at positions below n, when force is set. */
  function Dithered(cs: seq<Controller>, n: int, force: bool): (r: seq<Controller>)
    ensures |r| == |cs|
  {
    seq(|cs|, k requires 0 <= k < |cs| => if force && k < n then cs[k].(dither := 0) else cs[k])
  }

  /** Forcing dither off one more position updates that one controller. */
  lemma DitherStep(cs: seq<Controller>, n: nat, force: bool)
    requires n < |cs|
    ensures Dithered(cs, n + 1, force) == Dithered(cs, n, force)[n := if force then cs[n].(dither := 0) else cs[n]]
  {
  }

  /** A pass that does not force dither leaves the controllers as they were. */
  lemma NoDither(cs: seq<Controller>, n: int)
    ensures Dithered(cs, n, false) == cs
  {
  }

  /** Apply f to every controller: the broadcast setters. */
  function Broadcast(cs: seq<Controller>, f: Controller -> Controller): (r: seq<Controller>)
    ensures |r| == |cs|
  {
    seq(|cs|, k requires 0 <= k < |cs| => f(cs[k]))
  }

  /** The events of pass A over the first n controllers. */
  function Begins(cs: seq<Controller>, begin: Driver, n: nat): seq<Event>
    requires n <= |cs|
  {
    if n == 0 then []
    else Begins(cs, begin, n - 1) + if cs[n - 1].enabled then [Begin(n - 1, cs[n - 1].size, begin(n - 1, cs[n - 1]))] else []
  }

  /** The events of pass B of show over the first n controllers. */
  function Emits(cs: seq<Controller>, scale: u8, n: nat): seq<Event>
    requires n <= |cs|
  {
    if n == 0 then []
    else Emits(cs, scale, n - 1) + if cs[n - 1].enabled then [Emit(n - 1, scale, cs[n - 1].dither)] else []
  }

  /** The events of pass B of showColor over the first n controllers. */
  function EmitColors(cs: seq<Controller>, color: Rgb, scale: u8, n: nat): seq<Event>
    requires n <= |cs|
  {
    if n == 0 then []
    else EmitColors(cs, color, scale, n - 1) + if cs[n - 1].enabled then [EmitColor(n - 1, color, scale, cs[n - 1].dither)] else []
  }

  /** The events of pass C over the first n controllers, handing back the stored tokens. */
  function Ends(cs: seq<Controller>, tokens: seq<Token>, n: nat): seq<Event>
    requires n <= |cs| && n <= |tokens|
  {
    if n == 0 then []
    else Ends(cs, tokens, n - 1) + if cs[n - 1].enabled then [End(n - 1, tokens[n - 1])] else []
  }

  /** The events of clearData over the first n controllers. */
  function Clears(n: nat): seq<Event> {
    if n == 0 then [] else Clears(n - 1) + [ClearLeds(n - 1)]
  }

  /** The default frame count of countFPS, as show and showColor call it. */
  const FpsFrames := 25

  /** The events show appends, given the registry, the drivers' tokens and the token array pass C reads. */
  function ShowEvents(cs: seq<Controller>, begin: Driver, tokens: seq<Token>, scale: u8, force: bool): seq<Event>
    requires Visited(cs) <= |tokens|
  {
    [BeginFrame] + ShowPassEvents(cs, begin, tokens, scale, force) + [EndFrame, EndShowLeds]
  }

  /** The events of the three passes of show. */
  function ShowPassEvents(cs: seq<Controller>, begin: Driver, tokens: seq<Token>, scale: u8, force: bool): seq<Event>
    requires Visited(cs) <= |tokens|
  {
    var n := Visited(cs);
    Begins(cs, begin, n) + Emits(Dithered(cs, n, force), scale, n) + Ends(Dithered(cs, n, force), tokens, n)
  }

  /**
   * The controllers after showColor's pass B as written: the loop reuses
   * the count pass A left behind and never advances it, so it runs over
   * the whole list when pass A stopped short of MAX_CLED_CONTROLLERS, and
   * not at all otherwise.
   */
  function ColorPassed(cs: seq<Controller>, force: bool): (r: seq<Controller>)
    ensures |r| == |cs|
  {
    if Visited(cs) < MaxControllers then Dithered(cs, |cs|, force) else cs
  }

  /** The events of showColor's pass B as written. */
  function ColorEmits(cs: seq<Controller>, color: Rgb, scale: u8, force: bool): seq<Event> {
    if Visited(cs) < MaxControllers then EmitColors(Dithered(cs, |cs|, force), color, scale, |cs|) else []
  }

  /** The events showColor appends. */
  function ShowColorEvents(cs: seq<Controller>, begin: Driver, tokens: seq<Token>, color: Rgb, scale: u8, force: bool): seq<Event>
    requires Visited(cs) <= |tokens|
  {
    ColorPassEvents(cs, begin, tokens, color, scale, force) + [EndFrame]
  }

  /** The events of the three passes of showColor as written. */
  function ColorPassEvents(cs: seq<Controller>, begin: Driver, tokens: seq<Token>, color: Rgb, scale: u8, force: bool): seq<Event>
    requires Visited(cs) <= |tokens|
  {
    var n := Visited(cs);
    Begins(cs, begin, n) + ColorEmits(cs, color, scale, force) + Ends(ColorPassed(cs, force), tokens, n)
  }

  /** The events of showColor with pass B walking the same controllers as passes A and C. */
  function FixedShowColorEvents(cs: seq<Controller>, begin: Driver, tokens: seq<Token>, color: Rgb, scale: u8, force: bool): seq<Event>
    requires Visited(cs) <= |tokens|
  {
    FixedColorPassEvents(cs, begin, tokens, color, scale, force) + [EndFrame]
  }

  /** The events of the three passes of showColor with pass B over the first MAX_CLED_CONTROLLERS controllers. */
  function FixedColorPassEvents(cs: seq<Controller>, begin: Driver, tokens: seq<Token>, color: Rgb, scale: u8, force: bool): seq<Event>
    requires Visited(cs) <= |tokens|
  {
    var n := Visited(cs);
    Begins(cs, begin, n) + EmitColors(Dithered(cs, n, force), color, scale, n) + Ends(Dithered(cs, n, force), tokens, n)
  }

  // ---------------------------------------------------------------------
  // What the passes visit

  /** The event is addressed to one controller. */
  predicate Addressed(e: Event) {
    !(e.BeginFrame? || e.EndFrame? || e.EndShowLeds?)
  }

  /** es is addressed to exactly the enabled controllers below n, each once, in list order. */
  ghost predicate VisitsEnabled(es: seq<Event>, cs: seq<Controller>, n: nat)
    requires n <= |cs|
  {
    (forall i :: 0 <= i < |es| ==> Addressed(es[i]) && es[i].pos < n && cs[es[i].pos].enabled)
    && (forall i, j :: 0 <= i < j < |es| ==> es[i].pos < es[j].pos)
    && (forall k :: 0 <= k < n && cs[k].enabled ==> exists i :: 0 <= i < |es| && es[i].pos == k)
  }

  /** Appending an event for controller n - 1, when it is enabled, extends a visit of the first n - 1 to the first n. */
  lemma VisitsStep(es: seq<Event>, cs: seq<Controller>, n: nat, e: seq<Event>)
    requires 0 < n <= |cs| && VisitsEnabled(es, cs, n - 1)
    requires |e| == (if cs[n - 1].enabled then 1 else 0)
    requires forall x :: x in e ==> Addressed(x) && x.pos == n - 1
    ensures VisitsEnabled(es + e, cs, n)
  {
    var r := es + e;
    forall k | 0 <= k < n && cs[k].enabled
      ensures exists i :: 0 <= i < |r| && r[i].pos == k
    {
      if k < n - 1 {
        var i :| 0 <= i < |es| && es[i].pos == k;
        assert r[i] == es[i];
      } else {
        assert r[|es|] == e[0];
      }
    }
  }

  /** Pass A begins exactly the enabled controllers below n, in order. */
  lemma {:induction false} BeginsVisit(cs: seq<Controller>, begin: Driver, n: nat)
    requires n <= |cs|
    ensures VisitsEnabled(Begins(cs, begin, n), cs, n)
  {
    if n > 0 {
      BeginsVisit(cs, begin, n - 1);
      var e := if cs[n - 1].enabled then [Begin(n - 1, cs[n - 1].size, begin(n - 1, cs[n - 1]))] else [];
      VisitsStep(Begins(cs, begin, n - 1), cs, n, e);
    }
  }

  /** Each Begin of pass A carries its controller's size and the token its driver returns. */
  lemma {:induction false} BeginsCarry(cs: seq<Controller>, begin: Driver, n: nat)
    requires n <= |cs|
    ensures forall i :: 0 <= i < |Begins(cs, begin, n)| ==> var e := Begins(cs, begin, n)[i];
              e.Begin? && e.pos < n && e.size == cs[e.pos].size && e.token == Slot(cs, begin, e.pos)
  {
    if n > 0 {
      BeginsCarry(cs, begin, n - 1);
      var prior := Begins(cs, begin, n - 1);
      var e := if cs[n - 1].enabled then [Begin(n - 1, cs[n - 1].size, begin(n - 1, cs[n - 1]))] else [];
      assert Begins(cs, begin, n) == prior + e;
      forall i | 0 <= i < |prior|
        ensures (prior + e)[i] == prior[i]
      {
      }
    }
  }

  /** Pass B of show shows exactly the enabled controllers below n, in order. */
  lemma {:induction false} EmitsVisit(cs: seq<Controller>, scale: u8, n: nat)
    requires n <= |cs|
    ensures VisitsEnabled(Emits(cs, scale, n), cs, n)
  {
    if n > 0 {
      EmitsVisit(cs, scale, n - 1);
      var e := if cs[n - 1].enabled then [Emit(n - 1, scale, cs[n - 1].dither)] else [];
      VisitsStep(Emits(cs, scale, n - 1), cs, n, e);
    }
  }

  /** Each event of pass B of show is at the scale, with its controller's dither mode. */
  lemma {:induction false} EmitsCarry(cs: seq<Controller>, scale: u8, n: nat)
    requires n <= |cs|
    ensures forall i :: 0 <= i < |Emits(cs, scale, n)| ==> var e := Emits(cs, scale, n)[i];
              e.Emit? && e.pos < n && e.scale == scale && e.dither == cs[e.pos].dither
  {
    if n > 0 {
      EmitsCarry(cs, scale, n - 1);
      var prior := Emits(cs, scale, n - 1);
      var e := if cs[n - 1].enabled then [Emit(n - 1, scale, cs[n - 1].dither)] else [];
      assert Emits(cs, scale, n) == prior + e;
      forall i | 0 <= i < |prior|
        ensures (prior + e)[i] == prior[i]
      {
      }
    }
  }

  /** Pass B of showColor shows the colour on exactly the enabled controllers below n, in order. */
  lemma {:induction false} EmitColorsVisit(cs: seq<Controller>, color: Rgb, scale: u8, n: nat)
    requires n <= |cs|
    ensures VisitsEnabled(EmitColors(cs, color, scale, n), cs, n)
  {
    if n > 0 {
      EmitColorsVisit(cs, color, scale, n - 1);
      var e := if cs[n - 1].enabled then [EmitColor(n - 1, color, scale, cs[n - 1].dither)] else [];
      VisitsStep(EmitColors(cs, color, scale, n - 1), cs, n, e);
    }
  }

  /** Each event of pass B of showColor carries the colour and the scale, with its controller's dither mode. */
  lemma {:induction false} EmitColorsCarry(cs: seq<Controller>, color: Rgb, scale: u8, n: nat)
    requires n <= |cs|
    ensures forall i :: 0 <= i < |EmitColors(cs, color, scale, n)| ==> var e := EmitColors(cs, color, scale, n)[i];
              e.EmitColor? && e.pos < n && e.color == color && e.scale == scale && e.dither == cs[e.pos].dither
  {
    if n > 0 {
      EmitColorsCarry(cs, color, scale, n - 1);
      var prior := EmitColors(cs, color, scale, n - 1);
      var e := if cs[n - 1].enabled then [EmitColor(n - 1, color, scale, cs[n - 1].dither)] else [];
      assert EmitColors(cs, color, scale, n) == prior + e;
      forall i | 0 <= i < |prior|
        ensures (prior + e)[i] == prior[i]
      {
      }
    }
  }

  /** Each Begin turned into the End that hands its token back. */
  function Handback(es: seq<Event>): (r: seq<Event>)
    ensures |r| == |es|
  {
    seq(|es|, i requires 0 <= i < |es| => if es[i].Begin? then End(es[i].pos, es[i].token) else es[i])
  }

  /**
   * Pass C ends the controllers pass A began, in the same order, handing
   * each the token its driver returned, provided the enabled flags did not
   * change in between and the token array holds what pass A stored.
   */
  lemma {:induction false} EndsMatchBegins(cs: seq<Controller>, passed: seq<Controller>, begin: Driver, tokens: seq<Token>, n: nat)
    requires n <= |cs| == |passed| && n <= |tokens|
    requires forall k :: 0 <= k < n ==> passed[k].enabled == cs[k].enabled && tokens[k] == Slot(cs, begin, k)
    ensures Ends(passed, tokens, n) == Handback(Begins(cs, begin, n))
  {
    if n > 0 {
      EndsMatchBegins(cs, passed, begin, tokens, n - 1);
      var b := Begins(cs, begin, n - 1);
      var e := if cs[n - 1].enabled then [Begin(n - 1, cs[n - 1].size, begin(n - 1, cs[n - 1]))] else [];
      assert Begins(cs, begin, n) == b + e;
      assert Handback(b + e) == Handback(b) + Handback(e);
    }
  }

  /** A visit depends on the enabled flags alone. */
  lemma VisitsSameEnabled(es: seq<Event>, cs: seq<Controller>, other: seq<Controller>, n: nat)
    requires n <= |cs| && n <= |other| && VisitsEnabled(es, cs, n)
    requires forall k :: 0 <= k < n ==> other[k].enabled == cs[k].enabled
    ensures VisitsEnabled(es, other, n)
  {
  }

  /**
   * A frame of show: the frame-begin event, pass A, pass B, then pass C
   * handing back the tokens of pass A in the same order, then the
   * frame-end and show-end events.
   */
  lemma ShowFrame(cs: seq<Controller>, begin: Driver, tokens: seq<Token>, scale: u8, force: bool)
    requires Visited(cs) <= |tokens|
    requires forall k :: 0 <= k < Visited(cs) ==> tokens[k] == Slot(cs, begin, k)
    ensures var n := Visited(cs);
            ShowEvents(cs, begin, tokens, scale, force) ==
            [BeginFrame] + Begins(cs, begin, n) + Emits(Dithered(cs, n, force), scale, n) + Handback(Begins(cs, begin, n)) + [EndFrame, EndShowLeds]
  {
    var n := Visited(cs);
    EndsMatchBegins(cs, Dithered(cs, n, force), begin, tokens, n);
  }

  /**
   * In a frame of show, pass A begins and pass B shows exactly the enabled
   * controllers among the first MAX_CLED_CONTROLLERS, in list order; pass
   * B shows each at the scale, with dither off when the frame rate forced it.
   */
  lemma ShowVisits(cs: seq<Controller>, begin: Driver, scale: u8, force: bool)
    ensures var n := Visited(cs);
            var emits := Emits(Dithered(cs, n, force), scale, n);
            && VisitsEnabled(Begins(cs, begin, n), cs, n)
            && VisitsEnabled(emits, cs, n)
            && (forall i :: 0 <= i < |emits| ==> emits[i].Emit? && emits[i].scale == scale &&
                                                 emits[i].dither == (if force then 0 else cs[emits[i].pos].dither))
  {
    var n := Visited(cs);
    var passed := Dithered(cs, n, force);
    BeginsVisit(cs, begin, n);
    EmitsVisit(passed, scale, n);
    VisitsSameEnabled(Emits(passed, scale, n), passed, cs, n);
    EmitsCarry(passed, scale, n);
  }

  /** Below MAX_CLED_CONTROLLERS controllers, showColor as written and the fixed pass B agree. */
  lemma ShowColorBelowMax(cs: seq<Controller>, begin: Driver, tokens: seq<Token>, color: Rgb, scale: u8, force: bool)
    requires |cs| < MaxControllers && |cs| <= |tokens|
    ensures ShowColorEvents(cs, begin, tokens, color, scale, force) == FixedShowColorEvents(cs, begin, tokens, color, scale, force)
  {
  }

  /**
   * From MAX_CLED_CONTROLLERS controllers on, pass B of showColor as
   * written shows the colour on none of them and leaves their dither
   * alone, while the fixed pass B shows it on exactly the enabled ones
   * among the first MAX_CLED_CONTROLLERS.
   */
  lemma ShowColorAtMax(cs: seq<Controller>, color: Rgb, scale: u8, force: bool)
    requires MaxControllers <= |cs|
    ensures ColorEmits(cs, color, scale, force) == [] && ColorPassed(cs, force) == cs
    ensures VisitsEnabled(EmitColors(Dithered(cs, MaxControllers, force), color, scale, MaxControllers), cs, MaxControllers)
  {
    var passed := Dithered(cs, MaxControllers, force);
    EmitColorsVisit(passed, color, scale, MaxControllers);
    VisitsSameEnabled(EmitColors(passed, color, scale, MaxControllers), passed, cs, MaxControllers);
  }

  /** The busy-wait of show has not ended at reading now of the microsecond clock, with the given floor and previous frame start. */
  predicate Waits(floor: u32, last: u32, now: u32) {
    floor != 0 && U32(now - last) < floor
  }

  // ---------------------------------------------------------------------
  // The facade

  /** Every field of the facade, for stating what a method leaves alone. */
  datatype State = State(
    controllers: seq<Controller>, scale: u8, power: Option<PowerFunc>, powerData: u32,
    minMicros: u32, lastShow: u32, counter: Fps, trace: seq<Event>)

  class FastLed {
    var controllers: seq<Controller>  // the registry, head first, in registration order
    var scale: u8                     // m_Scale
    var power: Option<PowerFunc>      // m_pPowerFunc
    var powerData: u32                // m_nPowerData
    var minMicros: u32                // m_nMinMicros
    var lastShow: u32                 // the static lastshow
    var counter: Fps                  // m_nFPS and countFPS's statics
    const tokens: array<Token>        // gControllersData
    ghost var trace: seq<Event>

    predicate Valid() {
      tokens.Length == MaxControllers
    }

    ghost function St(): State
      reads this
    {
      State(controllers, scale, power, powerData, minMicros, lastShow, counter, trace)
    }

    /** The settings a frame leaves alone. */
    ghost function Settings(): (u8, Option<PowerFunc>, u32, u32)
      reads this
    {
      (scale, power, powerData, minMicros)
    }

    /** The fields a pass over the controllers leaves alone. */
    ghost function Setup(): (u8, Option<PowerFunc>, u32, u32, u32, Fps)
      reads this
    {
      (scale, power, powerData, minMicros, lastShow, counter)
    }

    /** The facade starts with full scale, no power function, no floor and no frames counted; the registry is empty. */
    constructor()
      ensures Valid() && fresh(tokens)
      ensures St() == State([], 255, None, 0xFFFF_FFFF, 0, 0, Fps(0, 0, 0), [])
    {
      controllers := [];
      scale := 255;
      counter := Fps(0, 0, 0);
      power := None;
      powerData := 0xFFFF_FFFF;
      minMicros := 0;
      lastShow := 0;
      tokens := new Token[MaxControllers](_ => Null);
      trace := [];
    }

    /** A controller's constructor appends it at the tail of the registry. */
    method Register(c: Controller)
      modifies this
      ensures St() == old(St()).(controllers := old(controllers) + [c])
    {
      controllers := controllers + [c];
    }

    // -------------------------------------------------------------------
    // The registry

    /** count(): walk the list to its end. */
    method Count() returns (n: int)
      ensures n == |controllers|
    {
      n := 0;
      while n < |controllers|
        invariant 0 <= n <= |controllers|
      {
        n := n + 1;
      }
    }

    /** operator[](x): walk x steps, falling back to the head when the list ends first. */
    method Get(x: int) returns (pos: nat)
      requires |controllers| > 0
      ensures pos == if 0 <= x < |controllers| then x else 0
    {
      var left := x;
      pos := 0;
      while left != 0 && pos < |controllers|
        invariant 0 <= pos <= |controllers| && left == x - pos
        invariant x >= 0 ==> pos <= x
        decreases |controllers| - pos
      {
        left := left - 1;
        pos := pos + 1;
      }
      if pos == |controllers| {
        pos := 0;
      }
    }

    /** size(): the LED count of the first controller. */
    method Size() returns (n: int)
      requires |controllers| > 0
      ensures n == controllers[0].size
    {
      var pos := Get(0);
      n := controllers[pos].size;
    }

    /** leds(): the buffer of the first controller. */
    method Leds() returns (p: int)
      requires |controllers| > 0
      ensures p == controllers[0].leds
    {
      var pos := Get(0);
      p := controllers[pos].leds;
    }

    /**
     * addLeds: controller pos gets its buffer window and count, the floor
     * is raised through the constrained branch by the controller's maximum
     * refresh rate, and the strip is announced with the count as written.
     */
    method AddLeds(pos: nat, data: int, nLedsOrOffset: int, nLedsIfOffset: int) returns (r: nat)
      requires pos < |controllers|
      modifies this
      ensures r == pos
      ensures St() == old(St()).(
        controllers := old(controllers)[pos := old(controllers[pos]).(leds := data + LedOffset(nLedsOrOffset, nLedsIfOffset), size := LedCount(nLedsOrOffset, nLedsIfOffset))],
        minMicros := RefreshFloor(old(minMicros), old(controllers[pos].maxRefresh), true),
        trace := old(trace) + [Init(pos), StripAdded(pos, ReportedCount(nLedsOrOffset, nLedsIfOffset))])
    {
      var nOffset := if nLedsIfOffset > 0 then nLedsOrOffset else 0;
      var nLeds := if nLedsIfOffset > 0 then nLedsIfOffset else nLedsOrOffset;
      trace := trace + [Init(pos)];
      controllers := controllers[pos := controllers[pos].(leds := data + nOffset, size := nLeds)];
      SetMaxRefreshRate(controllers[pos].maxRefresh, true);
      trace := trace + [StripAdded(pos, nLedsOrOffset - nOffset)];
      r := pos;
    }

    /** addLeds announcing the number of LEDs the controller was given. */
    method AddLedsReportingCount(pos: nat, data: int, nLedsOrOffset: int, nLedsIfOffset: int) returns (r: nat)
      requires pos < |controllers|
      modifies this
      ensures r == pos < |controllers| && controllers[pos].size == LedCount(nLedsOrOffset, nLedsIfOffset)
      ensures St() == old(St()).(
        controllers := old(controllers)[pos := old(controllers[pos]).(leds := data + LedOffset(nLedsOrOffset, nLedsIfOffset), size := LedCount(nLedsOrOffset, nLedsIfOffset))],
        minMicros := RefreshFloor(old(minMicros), old(controllers[pos].maxRefresh), true),
        trace := old(trace) + [Init(pos), StripAdded(pos, controllers[pos].size)])
    {
      var nOffset := if nLedsIfOffset > 0 then nLedsOrOffset else 0;
      var nLeds := if nLedsIfOffset > 0 then nLedsIfOffset else nLedsOrOffset;
      trace := trace + [Init(pos)];
      controllers := controllers[pos := controllers[pos].(leds := data + nOffset, size := nLeds)];
      SetMaxRefreshRate(controllers[pos].maxRefresh, true);
      trace := trace + [StripAdded(pos, nLeds)];
      r := pos;
    }

    /** setMaxRefreshRate: only m_nMinMicros changes. */
    method SetMaxRefreshRate(refresh: u16, constrain: bool)
      modifies this
      ensures St() == old(St()).(minMicros := RefreshFloor(old(minMicros), refresh, constrain))
    {
      if constrain {
        if refresh > 0 {
          minMicros := if 1000000 / refresh > minMicros then 1000000 / refresh else minMicros;
        }
      } else if refresh > 0 {
        minMicros := 1000000 / refresh;
      } else {
        minMicros := 0;
      }
    }

    /** countFPS(nFrames) with the millisecond clock at now. */
    method CountFPS(nFrames: int, now: u32)
      modifies this
      ensures St() == old(St()).(counter := CountFps(old(counter), nFrames, now))
    {
      var br := counter.frames;
      counter := counter.(frames := br + 1);
      if br >= nFrames {
        var elapsed := U32(now - counter.lastFrame);
        if elapsed == 0 {
          elapsed := 1;
        }
        counter := counter.(fps := U16(U32(counter.frames * 1000) / elapsed));
        counter := counter.(frames := 0, lastFrame := now);
      }
    }

    // -------------------------------------------------------------------
    // Broadcast setters

    method ClearData()
      modifies this
      ensures St() == old(St()).(trace := old(trace) + Clears(|controllers|))
    {
      var k := 0;
      while k < |controllers|
        invariant 0 <= k <= |controllers|
        invariant St() == old(St()).(trace := old(trace) + Clears(k))
      {
        trace := trace + [ClearLeds(k)];
        k := k + 1;
      }
    }

    method SetTemperature(temp: Rgb)
      modifies this
      ensures St() == old(St()).(controllers := Broadcast(old(controllers), (c: Controller) => c.(temperature := temp)))
    {
      var k := 0;
      while k < |controllers|
        invariant 0 <= k <= |controllers| == |old(controllers)|
        invariant forall i :: 0 <= i < |controllers| ==> controllers[i] == if i < k then old(controllers)[i].(temperature := temp) else old(controllers)[i]
        invariant St() == old(St()).(controllers := controllers)
      {
        controllers := controllers[k := controllers[k].(temperature := temp)];
        k := k + 1;
      }
    }

    method SetCorrection(correction: Rgb)
      modifies this
      ensures St() == old(St()).(controllers := Broadcast(old(controllers), (c: Controller) => c.(correction := correction)))
    {
      var k := 0;
      while k < |controllers|
        invariant 0 <= k <= |controllers| == |old(controllers)|
        invariant forall i :: 0 <= i < |controllers| ==> controllers[i] == if i < k then old(controllers)[i].(correction := correction) else old(controllers)[i]
        invariant St() == old(St()).(controllers := controllers)
      {
        controllers := controllers[k := controllers[k].(correction := correction)];
        k := k + 1;
      }
    }

    method SetDither(ditherMode: u8)
      modifies this
      ensures St() == old(St()).(controllers := Broadcast(old(controllers), (c: Controller) => c.(dither := ditherMode)))
    {
      var k := 0;
      while k < |controllers|
        invariant 0 <= k <= |controllers| == |old(controllers)|
        invariant forall i :: 0 <= i < |controllers| ==> controllers[i] == if i < k then old(controllers)[i].(dither := ditherMode) else old(controllers)[i]
        invariant St() == old(St()).(controllers := controllers)
      {
        controllers := controllers[k := controllers[k].(dither := ditherMode)];
        k := k + 1;
      }
    }

    // -------------------------------------------------------------------
    // The frame

    /**
     * The busy-wait of show and showColor over the successive readings of
     * micros(): it stops at the first reading at least m_nMinMicros after
     * the previous frame, measured modulo 2^32.
     */
    method AwaitFloor(clock: seq<u32>) returns (i: nat)
      requires exists j :: 0 <= j < |clock| && !Waits(minMicros, lastShow, clock[j])
      ensures i < |clock| && !Waits(minMicros, lastShow, clock[i])
      ensures forall j :: 0 <= j < i ==> Waits(minMicros, lastShow, clock[j])
    {
      ghost var last :| 0 <= last < |clock| && !Waits(minMicros, lastShow, clock[last]);
      i := 0;
      while Waits(minMicros, lastShow, clock[i])
        invariant 0 <= i <= last
        invariant forall j :: 0 <= j < i ==> Waits(minMicros, lastShow, clock[j])
        decreases last - i
      {
        i := i + 1;
      }
    }

    /**
     * Pass A: each of the first MAX_CLED_CONTROLLERS controllers stores the
     * token its driver returns when enabled and null otherwise; when the
     * pass forces it and the frame rate is below 100, each gets dither off.
     */
    method BeginPass(begin: Driver, setsDither: bool) returns (length: nat)
      requires Valid()
      modifies this, tokens
      ensures length == Visited(old(controllers))
      ensures Setup() == old(Setup())
      ensures controllers == Dithered(old(controllers), length, setsDither && old(counter.fps) < 100)
      ensures trace == old(trace) + Begins(old(controllers), begin, length)
      ensures forall k :: 0 <= k < length ==> tokens[k] == Slot(old(controllers), begin, k)
      ensures forall k :: length <= k < tokens.Length ==> tokens[k] == old(tokens[k])
    {
      ghost var cs0 := controllers;
      ghost var force := setsDither && counter.fps < 100;
      length := 0;
      while length < |controllers| && length < MaxControllers
        invariant length <= Visited(cs0)
        invariant controllers == Dithered(cs0, length, force)
        invariant Setup() == old(Setup()) && trace == old(trace) + Begins(cs0, begin, length)
        invariant forall k :: 0 <= k < length ==> tokens[k] == Slot(cs0, begin, k)
        invariant forall k :: length <= k < tokens.Length ==> tokens[k] == old(tokens[k])
      {
        var c := controllers[length];
        if c.enabled {
          var t := begin(length, c);
          tokens[length] := t;
          trace := trace + [Begin(length, c.size, t)];
        } else {
          tokens[length] := Null;
        }
        DitherStep(cs0, length, force);
        length := length + 1;
        if setsDither && counter.fps < 100 {
          controllers := controllers[length - 1 := c.(dither := 0)];
        }
      }
    }

    /** Pass B of show: every enabled controller among the first MAX_CLED_CONTROLLERS shows its LEDs at the scale. */
    method EmitPass(scale: u8)
      modifies this
      ensures Setup() == old(Setup()) && controllers == old(controllers)
      ensures trace == old(trace) + Emits(controllers, scale, Visited(controllers))
    {
      var length := 0;
      while length < MaxControllers && length < |controllers|
        invariant length <= Visited(controllers)
        invariant Setup() == old(Setup()) && controllers == old(controllers)
        invariant trace == old(trace) + Emits(controllers, scale, length)
      {
        if controllers[length].enabled {
          trace := trace + [Emit(length, scale, controllers[length].dither)];
        }
        length := length + 1;
      }
    }

    /** Pass C: every enabled controller among the first MAX_CLED_CONTROLLERS gets back the token stored for it. */
    method EndPass()
      requires Valid()
      modifies this
      ensures Setup() == old(Setup()) && controllers == old(controllers)
      ensures trace == old(trace) + Ends(controllers, tokens[..], Visited(controllers))
    {
      var length := 0;
      while length < MaxControllers && length < |controllers|
        invariant length <= Visited(controllers)
        invariant Setup() == old(Setup()) && controllers == old(controllers)
        invariant trace == old(trace) + Ends(controllers, tokens[..], length)
      {
        if controllers[length].enabled {
          trace := trace + [End(length, tokens[length])];
        }
        length := length + 1;
      }
    }

    /**
     * Pass B of showColor as written: it starts from the count pass A left
     * and tests it against MAX_CLED_CONTROLLERS without advancing it.
     */
    method ColorPass(length: nat, color: Rgb, scale: u8)
      requires length == Visited(controllers)
      modifies this
      ensures Setup() == old(Setup())
      ensures controllers == ColorPassed(old(controllers), old(counter.fps) < 100)
      ensures trace == old(trace) + ColorEmits(old(controllers), color, scale, old(counter.fps) < 100)
    {
      ghost var cs0 := controllers;
      ghost var passed := ColorPassed(cs0, counter.fps < 100);
      var cur := 0;
      while cur < |controllers| && length < MaxControllers
        invariant 0 <= cur <= |controllers| == |cs0|
        invariant length >= MaxControllers ==> cur == 0
        invariant controllers == Dithered(cs0, cur, counter.fps < 100)
        invariant Setup() == old(Setup())
        invariant trace == old(trace) + if length < MaxControllers then EmitColors(passed, color, scale, cur) else []
      {
        DitherStep(cs0, cur, counter.fps < 100);
        if counter.fps < 100 {
          controllers := controllers[cur := controllers[cur].(dither := 0)];
        }
        if controllers[cur].enabled {
          trace := trace + [EmitColor(cur, color, scale, controllers[cur].dither)];
        }
        cur := cur + 1;
      }
    }

    /** Pass B of showColor over the same controllers as passes A and C. */
    method FixedColorPass(color: Rgb, scale: u8)
      modifies this
      ensures Setup() == old(Setup())
      ensures controllers == Dithered(old(controllers), Visited(old(controllers)), old(counter.fps) < 100)
      ensures trace == old(trace) + EmitColors(controllers, color, scale, Visited(old(controllers)))
    {
      ghost var cs0 := controllers;
      ghost var passed := Dithered(cs0, Visited(cs0), counter.fps < 100);
      var length := 0;
      while length < |controllers| && length < MaxControllers
        invariant length <= Visited(cs0) && |controllers| == |cs0|
        invariant controllers == Dithered(cs0, length, counter.fps < 100)
        invariant Setup() == old(Setup()) && trace == old(trace) + EmitColors(passed, color, scale, length)
      {
        DitherStep(cs0, length, counter.fps < 100);
        if counter.fps < 100 {
          controllers := controllers[length := controllers[length].(dither := 0)];
        }
        if controllers[length].enabled {
          trace := trace + [EmitColor(length, color, scale, controllers[length].dither)];
        }
        length := length + 1;
      }
    }

    /** The start of a frame: wait out the floor, then record the reading that ended the wait. */
    method StartFrame(clock: seq<u32>)
      requires exists j :: 0 <= j < |clock| && !Waits(minMicros, lastShow, clock[j])
      modifies this
      ensures exists i :: 0 <= i < |clock| && lastShow == clock[i] && !Waits(old(minMicros), old(lastShow), clock[i]) &&
                          (forall j :: 0 <= j < i ==> Waits(old(minMicros), old(lastShow), clock[j]))
      ensures St() == old(St()).(lastShow := lastShow)
    {
      var i := AwaitFloor(clock);
      lastShow := clock[i];
    }

    /** The scale after the power function, if one is installed. */
    method ApplyPower(scale: u8) returns (s: u8)
      ensures s == PowerScale(scale, power, powerData)
    {
      s := scale;
      if power.Some? {
        s := power.value(s, powerData);
      }
    }

    /** The three passes of show. */
    method ShowPasses(begin: Driver, scale: u8)
      requires Valid()
      modifies this, tokens
      ensures forall k :: 0 <= k < Visited(old(controllers)) ==> tokens[k] == Slot(old(controllers), begin, k)
      ensures forall k :: Visited(old(controllers)) <= k < tokens.Length ==> tokens[k] == old(tokens[k])
      ensures Setup() == old(Setup())
      ensures controllers == Dithered(old(controllers), Visited(old(controllers)), old(counter.fps) < 100)
      ensures trace == old(trace) + ShowPassEvents(old(controllers), begin, tokens[..], scale, old(counter.fps) < 100)
    {
      ghost var cs, force, t0 := controllers, counter.fps < 100, trace;
      var length := BeginPass(begin, true);
      ghost var passed := controllers;
      EmitPass(scale);
      EndPass();
      assert controllers == passed == Dithered(cs, length, force);
      assert trace == t0 + Begins(cs, begin, length) + Emits(passed, scale, length) + Ends(passed, tokens[..], length);
    }

    /**
     * show(scale): wait out the refresh floor, record the frame start,
     * scale through the power function, then begin, show and end every
     * enabled controller among the first MAX_CLED_CONTROLLERS (dither off
     * below 100 frames per second), count the frame and close it.
     */
    method Show(scale: u8, clock: seq<u32>, nowMillis: u32, begin: Driver)
      requires Valid()
      requires exists j :: 0 <= j < |clock| && !Waits(minMicros, lastShow, clock[j])
      modifies this, tokens
      ensures exists i :: 0 <= i < |clock| && lastShow == clock[i] && !Waits(old(minMicros), old(lastShow), clock[i]) &&
                          (forall j :: 0 <= j < i ==> Waits(old(minMicros), old(lastShow), clock[j]))
      ensures forall k :: 0 <= k < Visited(old(controllers)) ==> tokens[k] == Slot(old(controllers), begin, k)
      ensures forall k :: Visited(old(controllers)) <= k < tokens.Length ==> tokens[k] == old(tokens[k])
      ensures Settings() == old(Settings())
      ensures controllers == Dithered(old(controllers), Visited(old(controllers)), old(counter.fps) < 100)
      ensures counter == CountFps(old(counter), FpsFrames, nowMillis)
      ensures trace == old(trace) + ShowEvents(old(controllers), begin, tokens[..], PowerScale(scale, old(power), old(powerData)), old(counter.fps) < 100)
    {
      trace := trace + [BeginFrame];
      StartFrame(clock);
      var s := ApplyPower(scale);
      ShowPasses(begin, s);
      CountFPS(FpsFrames, nowMillis);
      trace := trace + [EndFrame, EndShowLeds];
    }

    /** The three passes of showColor as written. */
    method ShowColorPasses(begin: Driver, color: Rgb, scale: u8)
      requires Valid()
      modifies this, tokens
      ensures forall k :: 0 <= k < Visited(old(controllers)) ==> tokens[k] == Slot(old(controllers), begin, k)
      ensures forall k :: Visited(old(controllers)) <= k < tokens.Length ==> tokens[k] == old(tokens[k])
      ensures Setup() == old(Setup())
      ensures controllers == ColorPassed(old(controllers), old(counter.fps) < 100)
      ensures trace == old(trace) + ColorPassEvents(old(controllers), begin, tokens[..], color, scale, old(counter.fps) < 100)
    {
      ghost var cs, force, t0 := controllers, counter.fps < 100, trace;
      var length := BeginPass(begin, false);
      NoDither(cs, length);
      ColorPass(length, color, scale);
      ghost var passed := controllers;
      EndPass();
      assert controllers == passed == ColorPassed(cs, force);
      assert trace == t0 + Begins(cs, begin, length) + ColorEmits(cs, color, scale, force) + Ends(passed, tokens[..], length);
    }

    /**
     * showColor(color, scale) as written: like show without the frame-begin
     * and show-end events, with pass B of ColorPass.
     */
    method ShowColor(color: Rgb, scale: u8, clock: seq<u32>, nowMillis: u32, begin: Driver)
      requires Valid()
      requires exists j :: 0 <= j < |clock| && !Waits(minMicros, lastShow, clock[j])
      modifies this, tokens
      ensures exists i :: 0 <= i < |clock| && lastShow == clock[i] && !Waits(old(minMicros), old(lastShow), clock[i]) &&
                          (forall j :: 0 <= j < i ==> Waits(old(minMicros), old(lastShow), clock[j]))
      ensures forall k :: 0 <= k < Visited(old(controllers)) ==> tokens[k] == Slot(old(controllers), begin, k)
      ensures forall k :: Visited(old(controllers)) <= k < tokens.Length ==> tokens[k] == old(tokens[k])
      ensures Settings() == old(Settings())
      ensures controllers == ColorPassed(old(controllers), old(counter.fps) < 100)
      ensures counter == CountFps(old(counter), FpsFrames, nowMillis)
      ensures trace == old(trace) + ShowColorEvents(old(controllers), begin, tokens[..], color, PowerScale(scale, old(power), old(powerData)), old(counter.fps) < 100)
    {
      StartFrame(clock);
      var s := ApplyPower(scale);
      ShowColorPasses(begin, color, s);
      CountFPS(FpsFrames, nowMillis);
      trace := trace + [EndFrame];
    }

    /** The three passes of showColor with pass B over the first MAX_CLED_CONTROLLERS controllers. */
    method FixedShowColorPasses(begin: Driver, color: Rgb, scale: u8)
      requires Valid()
      modifies this, tokens
      ensures forall k :: 0 <= k < Visited(old(controllers)) ==> tokens[k] == Slot(old(controllers), begin, k)
      ensures forall k :: Visited(old(controllers)) <= k < tokens.Length ==> tokens[k] == old(tokens[k])
      ensures Setup() == old(Setup())
      ensures controllers == Dithered(old(controllers), Visited(old(controllers)), old(counter.fps) < 100)
      ensures trace == old(trace) + FixedColorPassEvents(old(controllers), begin, tokens[..], color, scale, old(counter.fps) < 100)
    {
      ghost var cs, force, t0 := controllers, counter.fps < 100, trace;
      var length := BeginPass(begin, false);
      NoDither(cs, length);
      FixedColorPass(color, scale);
      ghost var passed := controllers;
      EndPass();
      assert controllers == passed == Dithered(cs, length, force);
      assert trace == t0 + Begins(cs, begin, length) + EmitColors(passed, color, scale, length) + Ends(passed, tokens[..], length);
    }

    /** showColor with pass B walking the first MAX_CLED_CONTROLLERS controllers, as passes A and C do. */
    method ShowColorFixed(color: Rgb, scale: u8, clock: seq<u32>, nowMillis: u32, begin: Driver)
      requires Valid()
      requires exists j :: 0 <= j < |clock| && !Waits(minMicros, lastShow, clock[j])
      modifies this, tokens
      ensures exists i :: 0 <= i < |clock| && lastShow == clock[i] && !Waits(old(minMicros), old(lastShow), clock[i]) &&
                          (forall j :: 0 <= j < i ==> Waits(old(minMicros), old(lastShow), clock[j]))
      ensures forall k :: 0 <= k < Visited(old(controllers)) ==> tokens[k] == Slot(old(controllers), begin, k)
      ensures forall k :: Visited(old(controllers)) <= k < tokens.Length ==> tokens[k] == old(tokens[k])
      ensures Settings() == old(Settings())
      ensures controllers == Dithered(old(controllers), Visited(old(controllers)), old(counter.fps) < 100)
      ensures counter == CountFps(old(counter), FpsFrames, nowMillis)
      ensures trace == old(trace) + FixedShowColorEvents(old(controllers), begin, tokens[..], color, PowerScale(scale, old(power), old(powerData)), old(counter.fps) < 100)
    {
      StartFrame(clock);
      var s := ApplyPower(scale);
      FixedShowColorPasses(begin, color, s);
      CountFPS(FpsFrames, nowMillis);
      trace := trace + [EndFrame];
    }

    /** clear(writeData): when asked, show black at scale 0 first; then clear every controller's data. */
    method Clear(writeData: bool, clock: seq<u32>, nowMillis: u32, begin: Driver)
      requires Valid()
      requires writeData ==> exists j :: 0 <= j < |clock| && !Waits(minMicros, lastShow, clock[j])
      modifies this, tokens
      ensures !writeData ==> St() == old(St()).(trace := old(trace) + Clears(|old(controllers)|))
      ensures writeData ==> trace == old(trace) + ShowColorEvents(old(controllers), begin, tokens[..], Rgb(0, 0, 0),
                                                   PowerScale(0, old(power), old(powerData)), old(counter.fps) < 100) + Clears(|old(controllers)|)
      ensures writeData ==> exists i :: 0 <= i < |clock| && lastShow == clock[i] && !Waits(old(minMicros), old(lastShow), clock[i]) &&
                                        (forall j :: 0 <= j < i ==> Waits(old(minMicros), old(lastShow), clock[j]))
      ensures writeData ==> forall k :: 0 <= k < Visited(old(controllers)) ==> tokens[k] == Slot(old(controllers), begin, k)
      ensures writeData ==> forall k :: Visited(old(controllers)) <= k < tokens.Length ==> tokens[k] == old(tokens[k])
      ensures !writeData ==> tokens[..] == old(tokens[..])
      ensures writeData ==> Settings() == old(Settings())
      ensures writeData ==> controllers == ColorPassed(old(controllers), old(counter.fps) < 100)
      ensures writeData ==> counter == CountFps(old(counter), FpsFrames, nowMillis)
    {
      if writeData {
        ShowColor(Rgb(0, 0, 0), 0, clock, nowMillis, begin);
      }
      ClearData();
    }
  }
}
