/** Scroll synchronisation of the table body surfaces (packages/table/src/body.ts,
    scrollEvent and syncBodyScroll). Each surface is an abstract element with its scroll
    offsets and its `onscroll` / `_onscroll` slots; the table keeps the last offsets and
    the time of the last scroll; each body component keeps one pending re-attach timer,
    modelled as the set of surfaces that timer will re-attach when it fires. */
module ScrollSync {
  import opened Options

  datatype Surface = MainBody | LeftBody | RightBody | Header | Footer

  predicate IsBody(s: Surface)
  {
    s == MainBody || s == LeftBody || s == RightBody
  }

  /** An element's scroll offsets; `onscroll` says whether its `onscroll` slot currently
      holds the body's scroll handler, `handler` whether its `_onscroll` slot does. */
  datatype Elem = Elem(scrollTop: int, scrollLeft: int, onscroll: bool, handler: bool)

  /** The surfaces whose vertical offset a body keeps in step with its own. */
  function Partners(source: Surface, present: set<Surface>): (ps: set<Surface>)
    ensures ps <= present && source !in ps
    ensures forall s :: s in ps ==> IsBody(s)
    ensures IsBody(source) ==> forall s :: s in present && IsBody(s) && s != source ==> s in ps
  {
    match source
    case LeftBody => {MainBody, RightBody} * present
    case RightBody => {MainBody, LeftBody} * present
    case MainBody => {LeftBody, RightBody} * present
    case _ => {}
  }

  /** The surfaces a scroll event on `source` writes the vertical offset to: a fixed body
      always syncs its partners, the main body only when the vertical offset changed. */
  function VerticalTargets(source: Surface, present: set<Surface>, isY: bool): (vs: set<Surface>)
    ensures vs <= present && source !in vs && forall s :: s in vs ==> IsBody(s)
    ensures IsBody(source) && source != MainBody && MainBody in present ==> MainBody in vs
    ensures source == MainBody ==> (vs != {} <==> isY && (LeftBody in present || RightBody in present))
  {
    if source == MainBody && !isY then {} else Partners(source, present)
  }

  /** The surfaces a scroll event on `source` writes the horizontal offset to. */
  function HorizontalTargets(source: Surface, present: set<Surface>, isX: bool): (hs: set<Surface>)
    ensures forall s :: s in hs ==> !IsBody(s)
  {
    if source == MainBody && isX then {Header, Footer} * present else {}
  }

  /** syncBodyScroll's effect on the elements: every target is detached and moved to `top`. */
  function Detach(elems: map<Surface, Elem>, targets: set<Surface>, top: int): (r: map<Surface, Elem>)
    ensures r.Keys == elems.Keys
    ensures forall s :: s in r && s in targets ==> r[s] == elems[s].(scrollTop := top, onscroll := false)
    ensures forall s :: s in r && s !in targets ==> r[s] == elems[s]
  {
    map s | s in elems :: if s in targets then elems[s].(scrollTop := top, onscroll := false) else elems[s]
  }

  /** The header and footer following the main body horizontally. */
  function CopyLeft(elems: map<Surface, Elem>, targets: set<Surface>, left: int): (r: map<Surface, Elem>)
    ensures r.Keys == elems.Keys
    ensures forall s :: s in r && s in targets ==> r[s] == elems[s].(scrollLeft := left)
    ensures forall s :: s in r && s !in targets ==> r[s] == elems[s]
  {
    map s | s in elems :: if s in targets then elems[s].(scrollLeft := left) else elems[s]
  }

  /** The elements after a scroll event on `source`, given the two change flags. */
  function AfterScroll(elems: map<Surface, Elem>, source: Surface, isX: bool, isY: bool): (r: map<Surface, Elem>)
    requires source in elems && MainBody in elems
    ensures r.Keys == elems.Keys
    ensures IsBody(source) ==> r[source] == elems[source]
  {
    var hs := HorizontalTargets(source, elems.Keys, isX);
    Detach(CopyLeft(elems, hs, elems[MainBody].scrollLeft), VerticalTargets(source, elems.Keys, isY),
           elems[source].scrollTop)
  }

  /** After a vertical move of any body, every present body stands at the source's
      vertical offset. */
  lemma VerticalConvergence(elems: map<Surface, Elem>, source: Surface, isX: bool, isY: bool)
    requires source in elems && MainBody in elems && IsBody(source)
    requires source != MainBody || isY
    ensures forall b :: b in elems && IsBody(b) ==>
      AfterScroll(elems, source, isX, isY)[b].scrollTop == elems[source].scrollTop
  {
  }

  /** After a horizontal move of the main body, header and footer stand at its
      horizontal offset. */
  lemma HorizontalConvergence(elems: map<Surface, Elem>, isY: bool)
    requires MainBody in elems
    ensures forall s :: s in elems && (s == Header || s == Footer) ==>
      AfterScroll(elems, MainBody, true, isY)[s].scrollLeft == elems[MainBody].scrollLeft
  {
  }

  /** What a scroll event leaves alone: the source element itself, every surface that is
      not a target, and the listeners of everything but the vertically synced bodies. */
  lemma ScrollFrame(elems: map<Surface, Elem>, source: Surface, isX: bool, isY: bool)
    requires source in elems && MainBody in elems && IsBody(source)
    ensures AfterScroll(elems, source, isX, isY).Keys == elems.Keys
    ensures AfterScroll(elems, source, isX, isY)[source] == elems[source]
    ensures forall s :: s in elems && s !in VerticalTargets(source, elems.Keys, isY)
                                   && s !in HorizontalTargets(source, elems.Keys, isX) ==>
      AfterScroll(elems, source, isX, isY)[s] == elems[s]
    ensures forall s :: s in elems && s !in VerticalTargets(source, elems.Keys, isY) ==>
      AfterScroll(elems, source, isX, isY)[s].onscroll == elems[s].onscroll
  {
  }

  /** No feedback loop: every body whose offset a scroll event writes is detached, so the
      browser's scroll event on that body finds no handler. */
  lemma WrittenBodiesAreDetached(elems: map<Surface, Elem>, source: Surface, isX: bool, isY: bool)
    requires source in elems && MainBody in elems && IsBody(source)
    ensures forall b :: (b in elems && IsBody(b) && AfterScroll(elems, source, isX, isY)[b] != elems[b]) ==>
      !AfterScroll(elems, source, isX, isY)[b].onscroll
  {
  }

  /** The header-drift correction is scheduled when the viewport is within 80px of the
      right end of the scrollable width. */
  predicate NeedsDriftFix(scrollXLoad: bool, isX: bool, headerPresent: bool, scrollLeft: int,
                          clientWidth: int, scrollWidth: int)
  {
    scrollXLoad && isX && headerPresent && scrollLeft + clientWidth >= scrollWidth - 80
  }

  /** What a scroll event reads that this model does not own: the clock, the table's
      options and the main body's geometry. */
  datatype ScrollEnv = ScrollEnv(now: int, highlightHoverRow: bool, scrollXLoad: bool, scrollYLoad: bool,
                                 clientWidth: int, scrollWidth: int, validTipVisible: bool)

  /** What a scroll event asks of the rest of the table, besides moving elements: the
      payload of the emitted `scroll` event (offsets and change flags) and the calls it
      makes (clear the hover row, checkScrolling, the virtual-scroll triggers, the
      next-tick header drift fix, the validation tooltip placement). */
  datatype ScrollEffects = ScrollEffects(
    scrollTop: int, scrollLeft: int, isX: bool, isY: bool,
    clearHoverRow: bool, checkScrolling: bool, triggerScrollX: bool, triggerScrollY: bool,
    fixHeaderDrift: bool, updateTipPlacement: bool)

  /** The pending timers after a scroll event on `source`: a non-empty target set replaces
      that body's timer. */
  function TimersAfterScroll(timers: map<Surface, set<Surface>>, present: set<Surface>, source: Surface,
                             isY: bool): (r: map<Surface, set<Surface>>)
    ensures VerticalTargets(source, present, isY) == {} ==> r == timers
    ensures VerticalTargets(source, present, isY) != {} ==>
      r == timers[source := VerticalTargets(source, present, isY)]
  {
    var vs := VerticalTargets(source, present, isY);
    if vs != {} then timers[source := vs] else timers
  }

  /** A firing timer: each target's `onscroll` gets whatever `_onscroll` holds. */
  function Reattach(elems: map<Surface, Elem>, targets: set<Surface>): (r: map<Surface, Elem>)
    ensures r.Keys == elems.Keys
    ensures forall s :: s in r && s in targets ==> r[s] == elems[s].(onscroll := elems[s].handler)
    ensures forall s :: s in r && s !in targets ==> r[s] == elems[s]
  {
    map s | s in elems :: if s in targets then elems[s].(onscroll := elems[s].handler) else elems[s]
  }

  ghost predicate Pending(timers: map<Surface, set<Surface>>, b: Surface)
  {
    exists src :: src in timers && b in timers[src]
  }

  /** The main body exists; a timer belongs to a present body and targets exactly its
      partners; a body's `onscroll` holds the handler only if `_onscroll` does; and every
      detached body listener will be restored by a pending timer. */
  ghost predicate Consistent(elems: map<Surface, Elem>, timers: map<Surface, set<Surface>>)
  {
    && MainBody in elems
    && (forall b :: b in timers ==> IsBody(b) && b in elems && timers[b] == Partners(b, elems.Keys))
    && (forall b :: b in elems && IsBody(b) && elems[b].onscroll ==> elems[b].handler)
    && (forall b :: b in elems && IsBody(b) && elems[b].handler && !elems[b].onscroll ==> Pending(timers, b))
  }

  /** A scroll event keeps every listener either attached or restorable. */
  lemma ScrollKeepsConsistent(elems: map<Surface, Elem>, timers: map<Surface, set<Surface>>,
                              source: Surface, isX: bool, isY: bool)
    requires Consistent(elems, timers) && source in elems && IsBody(source)
    ensures Consistent(AfterScroll(elems, source, isX, isY), TimersAfterScroll(timers, elems.Keys, source, isY))
  {
    var e2 := AfterScroll(elems, source, isX, isY);
    var t2 := TimersAfterScroll(timers, elems.Keys, source, isY);
    var vs := VerticalTargets(source, elems.Keys, isY);
    var hs := HorizontalTargets(source, elems.Keys, isX);
    forall b | b in e2 && IsBody(b) && e2[b].handler && !e2[b].onscroll
      ensures Pending(t2, b)
    {
      if b in vs {
        assert source in t2 && b in t2[source];
      } else {
        assert b !in hs;
        assert e2[b] == elems[b];
        var src :| src in timers && b in timers[src];
        if src == source && vs != {} {
          assert false;
        }
        assert src in t2 && t2[src] == timers[src];
      }
    }
  }

  /** A firing timer keeps every listener either attached or restorable. */
  lemma FireKeepsConsistent(elems: map<Surface, Elem>, timers: map<Surface, set<Surface>>, instance: Surface)
    requires Consistent(elems, timers) && instance in timers
    ensures Consistent(Reattach(elems, timers[instance]), timers - {instance})
  {
    var e2 := Reattach(elems, timers[instance]);
    var t2 := timers - {instance};
    forall b | b in e2 && IsBody(b) && e2[b].handler && !e2[b].onscroll
      ensures Pending(t2, b)
    {
      assert b !in timers[instance];
      var src :| src in timers && b in timers[src];
      assert src != instance;
      assert src in t2;
    }
  }

  /** With no timer pending, every body's `onscroll` holds exactly what `_onscroll` holds. */
  lemma QuiescentMeansAttached(elems: map<Surface, Elem>)
    requires Consistent(elems, map[])
    ensures forall b :: b in elems && IsBody(b) ==> elems[b].onscroll == elems[b].handler
  {
    forall b | b in elems && IsBody(b)
      ensures elems[b].onscroll == elems[b].handler
    {
      if elems[b].handler && !elems[b].onscroll {
        assert false;
      }
    }
  }

  class TableScroll {
    var elems: map<Surface, Elem>
    var lastScrollTop: int
    var lastScrollLeft: int
    var lastScrollTime: int
    /** The pending re-attach timer of each body component, by the surface it renders. */
    var timers: map<Surface, set<Surface>>

    ghost predicate Valid()
      reads this
    {
      Consistent(elems, timers)
    }

    /** The surfaces that exist, none scrolled, no handler attached yet. */
    constructor (present: set<Surface>)
      requires MainBody in present
      ensures Valid()
      ensures elems.Keys == present
      ensures forall s :: s in elems ==> elems[s] == Elem(0, 0, false, false)
      ensures lastScrollTop == 0 && lastScrollLeft == 0 && lastScrollTime == 0 && timers == map[]
    {
      elems := map s | s in present :: Elem(0, 0, false, false);
      lastScrollTop, lastScrollLeft, lastScrollTime := 0, 0, 0;
      timers := map[];
    }

    /** After mounting, a body attaches its scroll handler to both slots. */
    method Mount(b: Surface)
      requires Valid() && b in elems && IsBody(b)
      modifies this
      ensures Valid()
      ensures elems == old(elems)[b := old(elems)[b].(onscroll := true, handler := true)]
      ensures unchanged(this`timers, this`lastScrollTop, this`lastScrollLeft, this`lastScrollTime)
    {
      elems := elems[b := elems[b].(onscroll := true, handler := true)];
    }

    /** Before unmounting, a body clears both slots. */
    method Unmount(b: Surface)
      requires Valid() && b in elems && IsBody(b)
      modifies this
      ensures Valid()
      ensures elems == old(elems)[b := old(elems)[b].(onscroll := false, handler := false)]
      ensures unchanged(this`timers, this`lastScrollTop, this`lastScrollLeft, this`lastScrollTime)
    {
      elems := elems[b := elems[b].(onscroll := false, handler := false)];
    }

    /** The user (or the browser) moves a surface; no handler runs yet. */
    method UserMoves(s: Surface, top: int, left: int)
      requires Valid() && s in elems
      modifies this
      ensures Valid()
      ensures elems == old(elems)[s := old(elems)[s].(scrollTop := top, scrollLeft := left)]
      ensures unchanged(this`timers, this`lastScrollTop, this`lastScrollLeft, this`lastScrollTime)
    {
      elems := elems[s := elems[s].(scrollTop := top, scrollLeft := left)];
    }

    /** The browser's scroll event on a body: runs scrollEvent only when the body's
        `onscroll` holds the handler; on a detached body it does nothing at all. */
    method NativeScroll(s: Surface, env: ScrollEnv) returns (fx: Option<ScrollEffects>)
      requires Valid() && s in elems && IsBody(s)
      modifies this
      ensures Valid()
      ensures fx.Some? <==> old(elems)[s].onscroll
      ensures !old(elems)[s].onscroll ==>
        unchanged(this`elems, this`timers, this`lastScrollTop, this`lastScrollLeft, this`lastScrollTime)
      ensures old(elems)[s].onscroll ==>
        && fx.value.isX == (old(elems)[MainBody].scrollLeft != old(lastScrollLeft))
        && fx.value.isY == (old(elems)[s].scrollTop != old(lastScrollTop))
        && fx.value.scrollTop == old(elems)[s].scrollTop && fx.value.scrollLeft == old(elems)[MainBody].scrollLeft
        && lastScrollTop == fx.value.scrollTop && lastScrollLeft == fx.value.scrollLeft && lastScrollTime == env.now
        && elems == AfterScroll(old(elems), s, fx.value.isX, fx.value.isY)
        && timers == TimersAfterScroll(old(timers), old(elems).Keys, s, fx.value.isY)
      ensures old(elems)[s].onscroll ==>
        && fx.value.clearHoverRow == env.highlightHoverRow
        && fx.value.checkScrolling == (s == MainBody && (LeftBody in elems || RightBody in elems))
        && fx.value.triggerScrollX == (env.scrollXLoad && fx.value.isX)
        && fx.value.triggerScrollY == (env.scrollYLoad && fx.value.isY)
        && fx.value.fixHeaderDrift == NeedsDriftFix(env.scrollXLoad, fx.value.isX, Header in elems, fx.value.scrollLeft,
                                                    env.clientWidth, env.scrollWidth)
        && fx.value.updateTipPlacement == (fx.value.isX && env.validTipVisible)
    {
      if elems[s].onscroll {
        var e := ScrollEvent(s, env);
        fx := Some(e);
      } else {
        fx := None;
      }
    }

    static function Targets(elem1: Option<Surface>, elem2: Option<Surface>): (ts: set<Surface>)
      ensures forall s :: s in ts <==> Some(s) == elem1 || Some(s) == elem2
    {
      (if elem1.Some? then {elem1.value} else {}) + (if elem2.Some? then {elem2.value} else {})
    }

    function Present(s: Surface): (o: Option<Surface>)
      reads this
      ensures o.Some? <==> s in elems
      ensures o.Some? ==> o.value == s
    {
      if s in elems then Some(s) else None
    }

    /** syncBodyScroll: detach each given target and move it to `scrollTop`; if there was
        a target, replace this body's pending timer by one that re-attaches exactly these. */
    method SyncBodyScroll(instance: Surface, scrollTop: int, elem1: Option<Surface>, elem2: Option<Surface>)
      requires (elem1.Some? ==> elem1.value in elems) && (elem2.Some? ==> elem2.value in elems)
      modifies this
      ensures elems == Detach(old(elems), Targets(elem1, elem2), scrollTop)
      ensures timers == if Targets(elem1, elem2) != {} then old(timers)[instance := Targets(elem1, elem2)]
                        else old(timers)
      ensures unchanged(this`lastScrollTop, this`lastScrollLeft, this`lastScrollTime)
    {
      if elem1.Some? || elem2.Some? {
        if elem1.Some? {
          elems := elems[elem1.value := elems[elem1.value].(onscroll := false, scrollTop := scrollTop)];
        }
        if elem2.Some? {
          elems := elems[elem2.value := elems[elem2.value].(onscroll := false, scrollTop := scrollTop)];
        }
        timers := timers[instance := Targets(elem1, elem2)];
      }
      assert elems == Detach(old(elems), Targets(elem1, elem2), scrollTop);
    }

    /** The branch of scrollEvent for a fixed body: sync the main body and the other
        fixed body to this one. */
    method ForwardFromFixed(source: Surface)
      requires MainBody in elems && source in elems && (source == LeftBody || source == RightBody)
      modifies this
      ensures elems == AfterScroll(old(elems), source, false, false)
      ensures timers == TimersAfterScroll(old(timers), old(elems).Keys, source, false)
      ensures unchanged(this`lastScrollTop, this`lastScrollLeft, this`lastScrollTime)
    {
      ghost var e0 := elems;
      var other := if source == LeftBody then RightBody else LeftBody;
      SyncBodyScroll(source, elems[source].scrollTop, Some(MainBody), Present(other));
      assert Targets(Some(MainBody), Present(other)) == VerticalTargets(source, e0.Keys, false);
      assert CopyLeft(e0, {}, e0[MainBody].scrollLeft) == e0;
    }

    /** The branch of scrollEvent for the main body: header and footer follow a horizontal
        move; the fixed bodies follow a vertical one. */
    method ForwardFromMain(isX: bool, isY: bool) returns (checkScrolling: bool)
      requires MainBody in elems
      modifies this
      ensures elems == AfterScroll(old(elems), MainBody, isX, isY)
      ensures timers == TimersAfterScroll(old(timers), old(elems).Keys, MainBody, isY)
      ensures checkScrolling == (LeftBody in elems || RightBody in elems)
      ensures unchanged(this`lastScrollTop, this`lastScrollLeft, this`lastScrollTime)
    {
      ghost var e0 := elems;
      checkScrolling := false;
      if isX {
        if Header in elems {
          elems := elems[Header := elems[Header].(scrollLeft := elems[MainBody].scrollLeft)];
        }
        if Footer in elems {
          elems := elems[Footer := elems[Footer].(scrollLeft := elems[MainBody].scrollLeft)];
        }
      }
      assert elems == CopyLeft(e0, HorizontalTargets(MainBody, e0.Keys, isX), e0[MainBody].scrollLeft);
      ghost var e1 := elems;
      if LeftBody in elems || RightBody in elems {
        checkScrolling := true;
        if isY {
          SyncBodyScroll(MainBody, elems[MainBody].scrollTop, Present(LeftBody), Present(RightBody));
          assert Targets(Present(LeftBody), Present(RightBody)) == VerticalTargets(MainBody, e0.Keys, isY);
        }
      }
      assert VerticalTargets(MainBody, e0.Keys, isY) == {} ==> Detach(e1, {}, e0[MainBody].scrollTop) == e1;
    }

    /** scrollEvent of the body component rendering `source`. */
    method ScrollEvent(source: Surface, env: ScrollEnv) returns (fx: ScrollEffects)
      requires Valid() && source in elems && IsBody(source)
      modifies this
      ensures Valid()
      ensures fx.isX == (old(elems)[MainBody].scrollLeft != old(lastScrollLeft))
      ensures fx.isY == (old(elems)[source].scrollTop != old(lastScrollTop))
      ensures fx.scrollTop == old(elems)[source].scrollTop && fx.scrollLeft == old(elems)[MainBody].scrollLeft
      ensures lastScrollTop == fx.scrollTop && lastScrollLeft == fx.scrollLeft && lastScrollTime == env.now
      ensures elems == AfterScroll(old(elems), source, fx.isX, fx.isY)
      ensures timers == TimersAfterScroll(old(timers), old(elems).Keys, source, fx.isY)
      ensures fx.clearHoverRow == env.highlightHoverRow
      ensures fx.checkScrolling == (source == MainBody && (LeftBody in elems || RightBody in elems))
      ensures fx.triggerScrollX == (env.scrollXLoad && fx.isX)
      ensures fx.triggerScrollY == (env.scrollYLoad && fx.isY)
      ensures fx.fixHeaderDrift == NeedsDriftFix(env.scrollXLoad, fx.isX, Header in elems, fx.scrollLeft,
                                                 env.clientWidth, env.scrollWidth)
      ensures fx.updateTipPlacement == (fx.isX && env.validTipVisible)
    {
      ghost var e0, t0 := elems, timers;
      var scrollTop := elems[source].scrollTop;
      var scrollLeft := elems[MainBody].scrollLeft;
      var isX := scrollLeft != lastScrollLeft;
      var isY := scrollTop != lastScrollTop;
      lastScrollTop := scrollTop;
      lastScrollLeft := scrollLeft;
      lastScrollTime := env.now;
      var checkScrolling := false;
      if source != MainBody {
        ForwardFromFixed(source);
        assert AfterScroll(e0, source, false, false) == AfterScroll(e0, source, isX, isY);
        assert TimersAfterScroll(t0, e0.Keys, source, false) == TimersAfterScroll(t0, e0.Keys, source, isY);
      } else {
        checkScrolling := ForwardFromMain(isX, isY);
      }
      ScrollKeepsConsistent(e0, t0, source, isX, isY);
      fx := ScrollEffects(scrollTop, scrollLeft, isX, isY, env.highlightHoverRow, checkScrolling,
                          env.scrollXLoad && isX, env.scrollYLoad && isY,
                          NeedsDriftFix(env.scrollXLoad, isX, Header in elems, scrollLeft, env.clientWidth, env.scrollWidth),
                          isX && env.validTipVisible);
    }

    /** The body's pending timer fires: each of its targets gets back whatever handler its
        `_onscroll` holds now. */
    method FireTimer(instance: Surface)
      requires Valid() && instance in timers
      modifies this
      ensures Valid()
      ensures elems == Reattach(old(elems), old(timers)[instance])
      ensures timers == old(timers) - {instance}
      ensures unchanged(this`lastScrollTop, this`lastScrollLeft, this`lastScrollTime)
    {
      FireKeepsConsistent(elems, timers, instance);
      var targets := timers[instance];
      elems := map s | s in elems :: if s in targets then elems[s].(onscroll := elems[s].handler) else elems[s];
      timers := timers - {instance};
    }

    /** The next-tick drift correction: the header follows the main body horizontally. */
    method FixHeaderDrift()
      requires Valid()
      modifies this
      ensures Valid()
      ensures Header in old(elems) ==>
        elems == old(elems)[Header := old(elems)[Header].(scrollLeft := old(elems)[MainBody].scrollLeft)]
      ensures Header !in old(elems) ==> elems == old(elems)
      ensures unchanged(this`timers, this`lastScrollTop, this`lastScrollLeft, this`lastScrollTime)
    {
      if Header in elems && elems[MainBody].scrollLeft != elems[Header].scrollLeft {
        elems := elems[Header := elems[Header].(scrollLeft := elems[MainBody].scrollLeft)];
      }
    }
  }
}
