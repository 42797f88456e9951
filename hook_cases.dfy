/** The test suite's expectations for `hook`, `on_press`, `on_release`,
    `hook_key` and their removal. A callback is modelled by its verdict; the
    number of times the test's counter was incremented is the number of
    calls recorded since the fresh session, and an assertion a callback
    makes about the events it sees is stated about those calls. */
module HookCases {
  import opened Events
  import opened Keys
  import opened KeyCases
  import opened Listener
  import opened Client
  import opened DispatchFacts

  // ---------------------------------------------------------------------
  // One hook, one event.

  /** What a session holding one hook does with one event: it is
      forwarded unless the hook suppresses, is offered it and refuses it,
      and the hook is called when it is offered the event and its filter
      lets it through. */
  lemma OneHook(h: Hook, e: KeyEvent)
    ensures Accepts([h], e) <==> !(h.suppress && Applies(h, e)) || Allows(h, e)
    ensures CallsOf([h], e, true) + (if Accepts([h], e) then CallsOf([h], e, false) else []) ==
            if Applies(h, e) && Wants(h, e) && (!h.suppress ==> Accepts([h], e)) then [Call(h.id, e)] else []
  {
    assert [h][0] == h && [h][..0] == [];
    if Guarded([h], e) {
      var i :| 0 <= i < 1 && [h][i].suppress && Applies([h][i], e);
    }
  }

  /** With no hooks, every event passes and no callback is called. */
  lemma NoHooks(events: seq<KeyEvent>)
    ensures AcceptedBy([], events) == events && CallsFor([], events) == []
  {
    AcceptedByAll([], events);
    CallsForNone(events);
  }

  lemma {:induction false} CallsForNone(events: seq<KeyEvent>)
    ensures CallsFor([], events) == []
    decreases |events|
  {
    if events != [] {
      CallsForNone(events[1..]);
    }
  }

  /** The forwarded events and the calls of one hook over two events. */
  lemma OneHookTwo(h: Hook, e1: KeyEvent, e2: KeyEvent)
    ensures AcceptedBy([h], [e1, e2]) ==
            (if Accepts([h], e1) then [e1] else []) + (if Accepts([h], e2) then [e2] else [])
    ensures CallsFor([h], [e1, e2]) ==
            (if Applies(h, e1) && Wants(h, e1) && (!h.suppress ==> Accepts([h], e1)) then [Call(h.id, e1)] else []) +
            (if Applies(h, e2) && Wants(h, e2) && (!h.suppress ==> Accepts([h], e2)) then [Call(h.id, e2)] else [])
  {
    OneHookOne(h, e2);
    AcceptedByPair([h], e1, e2);
    CallsForPair([h], e1, e2);
    OneHook(h, e1);
  }

  lemma AcceptedByPair(hooks: seq<Hook>, e1: KeyEvent, e2: KeyEvent)
    ensures AcceptedBy(hooks, [e1, e2]) == (if Accepts(hooks, e1) then [e1] else []) + AcceptedBy(hooks, [e2])
  {
    assert [e1, e2][1..] == [e2];
  }

  lemma CallsForPair(hooks: seq<Hook>, e1: KeyEvent, e2: KeyEvent)
    ensures CallsFor(hooks, [e1, e2]) ==
            CallsOf(hooks, e1, true) + (if Accepts(hooks, e1) then CallsOf(hooks, e1, false) else []) + CallsFor(hooks, [e2])
  {
    assert [e1, e2][1..] == [e2];
  }

  lemma OneHookOne(h: Hook, e1: KeyEvent)
    ensures AcceptedBy([h], [e1]) == (if Accepts([h], e1) then [e1] else [])
    ensures CallsFor([h], [e1]) ==
            (if Applies(h, e1) && Wants(h, e1) && (!h.suppress ==> Accepts([h], e1)) then [Call(h.id, e1)] else [])
  {
    OneHook(h, e1);
    assert [e1][1..] == [];
    var head := CallsOf([h], e1, true) + (if Accepts([h], e1) then CallsOf([h], e1, false) else []);
    assert CallsFor([h], [e1]) == head + [];
  }

  /** The harness's `do` on a session without rules: the hooks filter the
      events and the callbacks they reach are recorded. */
  lemma DoRulesFree(s: Session, events: seq<KeyEvent>)
    requires RulesFree(s)
    ensures var (out, t) := Do(s, events);
            out == s.output + AcceptedBy(s.hooks, events) && t.calls == s.calls + CallsFor(s.hooks, events) &&
            RulesFree(t) && t.hooks == s.hooks && t.nextId == s.nextId && t.pressed == TrackAll(s.pressed, events)
  {
    InjectRulesFree(s, events);
    InjectRulesFreeCalls(s, events);
    InjectRulesFreeState(s, events);
  }

  /** Removing the only hook by its handle leaves none. */
  lemma UnhookOnly(s: Session, h: Hook)
    requires s.hooks == [h]
    ensures Unhook(s, h.id) == Ok(s.(hooks := []))
  {
    assert FirstWhere(s.hooks, (g: Hook) => g.id == h.id) == 0;
  }

  /** Removing the only hook by its key leaves none. */
  lemma UnhookKeyOnly(s: Session, h: Hook, key: Key)
    requires s.hooks == [h] && h.scope.OnKey? && h.scope.key == key
    ensures UnhookKey(s, key) == Ok(s.(hooks := []))
  {
    assert FirstWhere(s.hooks, (g: Hook) => g.scope.OnKey? && g.scope.key == key) == 0;
  }

  // ---------------------------------------------------------------------
  // hook, unhook, unhook_all.

  /** A hook on every key, any event, that does not suppress, over two
      events: both pass and both reach it. */
  lemma PassingHookTwo(s: Session, h: Hook, e1: KeyEvent, e2: KeyEvent)
    requires RulesFree(s) && s.hooks == [h] && h.scope == AllKeys && h.filter == AnyEvent && !h.suppress
    ensures var (out, t) := Do(s, [e1, e2]);
            out == s.output + [e1, e2] && t.calls == s.calls + [Call(h.id, e1), Call(h.id, e2)] &&
            RulesFree(t) && t.hooks == s.hooks && t.nextId == s.nextId
  {
    DoRulesFree(s, [e1, e2]);
    PassingPair(h, e1, e2);
  }

  lemma PassingPair(h: Hook, e1: KeyEvent, e2: KeyEvent)
    requires h.scope == AllKeys && h.filter == AnyEvent && !h.suppress
    ensures AcceptedBy([h], [e1, e2]) == [e1, e2]
    ensures CallsFor([h], [e1, e2]) == [Call(h.id, e1), Call(h.id, e2)]
  {
    assert Accepts([h], e1) && Accepts([h], e2) by { OneHook(h, e1); OneHook(h, e2); }
    assert Applies(h, e1) && Applies(h, e2) && Wants(h, e1) && Wants(h, e2);
    OneHookTwo(h, e1, e2);
    assert [e1] + [e2] == [e1, e2] && [Call(h.id, e1)] + [Call(h.id, e2)] == [Call(h.id, e1), Call(h.id, e2)];
  }

  /** No hooks, two events: both pass, nothing is called. */
  lemma NoHookTwo(s: Session, e1: KeyEvent, e2: KeyEvent)
    requires RulesFree(s) && s.hooks == []
    ensures var (out, t) := Do(s, [e1, e2]);
            out == s.output + [e1, e2] && t.calls == s.calls && RulesFree(t) && t.hooks == [] && t.nextId == s.nextId
  {
    DoRulesFree(s, [e1, e2]);
    NoHooks([e1, e2]);
  }

  /** The session holds no hook and no rule, and has emitted nothing
      since the last `do`. */
  ghost predicate NoHook(s: Session)
  {
    RulesFree(s) && s.hooks == [] && s.output == []
  }

  /** `test_hook_nonblocking`, up to `unhook`: the counter reaches 2 and
      stays there once the hook is removed; every event passes and both
      calls see `a`. */
  lemma HookNonblocking(a: string, count: KeyEvent -> bool)
    requires a == "a"
    ensures var da, ua := KeyEvent(Down, 1, Some(a)), KeyEvent(Up, 1, Some(a));
            var (s1, id1) := AddGlobalHook(Fresh(), count, false);
            var (o1, t1) := Do(s1, [da, ua]);
            Unhook(t1, id1).Ok? &&
            var (o2, t2) := Do(Unhook(t1, id1).value, [da, ua]);
            o1 == [da, ua] && |t1.calls| == 2 &&
            o2 == [da, ua] && t2.calls == [Call(id1, da), Call(id1, ua)] && NoHook(t2)
  {
    var da, ua := KeyEvent(Down, 1, Some(a)), KeyEvent(Up, 1, Some(a));
    var (s1, id1) := AddGlobalHook(Fresh(), count, false);
    PassingHookTwo(s1, s1.hooks[0], da, ua);
    var t1 := Do(s1, [da, ua]).1;
    UnhookOnly(t1, s1.hooks[0]);
    NoHookTwo(Unhook(t1, id1).value, da, ua);
  }

  /** `test_hook_nonblocking`, from the second `hook`: the counter reaches 4
      and stays there after `unhook_all`; every call sees `a`. */
  lemma HookNonblockingAgain(a: string, count: KeyEvent -> bool, t2: Session)
    requires a == "a" && NoHook(t2) && |t2.calls| == 2
    requires forall k :: 0 <= k < |t2.calls| ==> t2.calls[k].event.name == Some(a)
    ensures var da, ua := KeyEvent(Down, 1, Some(a)), KeyEvent(Up, 1, Some(a));
            var (s3, id3) := AddGlobalHook(t2, count, false);
            var (o3, t3) := Do(s3, [da, ua]);
            var (o4, t4) := Do(UnhookAll(t3), [da, ua]);
            o3 == [da, ua] && |t3.calls| == 4 &&
            o4 == [da, ua] && |t4.calls| == 4 &&
            forall k :: 0 <= k < |t4.calls| ==> t4.calls[k].event.name == Some(a)
  {
    var da, ua := KeyEvent(Down, 1, Some(a)), KeyEvent(Up, 1, Some(a));
    var s3 := AddGlobalHook(t2, count, false).0;
    var h := Hook(t2.nextId, AllKeys, false, AnyEvent, count);
    assert s3 == t2.(hooks := [h], nextId := t2.nextId + 1);
    PassingHookTwo(s3, h, da, ua);
    var t3 := Do(s3, [da, ua]).1;
    assert t3.calls == t2.calls + [Call(h.id, da), Call(h.id, ua)];
    var u := UnhookAll(t3);
    assert RulesFree(u) && u.hooks == [] && u.output == [] && u.calls == t3.calls;
    NoHookTwo(u, da, ua);
    var t4 := Do(u, [da, ua]).1;
    assert t4.calls == t3.calls;
  }

  /** A suppressing hook on every key, any event, over two events: it is
      asked about both and only what it allows passes. */
  lemma DecidingHookTwo(s: Session, h: Hook, e1: KeyEvent, e2: KeyEvent)
    requires RulesFree(s) && s.hooks == [h] && h.scope == AllKeys && h.filter == AnyEvent && h.suppress
    ensures var (out, t) := Do(s, [e1, e2]);
            out == s.output + (if h.verdict(e1) then [e1] else []) + (if h.verdict(e2) then [e2] else []) &&
            t.calls == s.calls + [Call(h.id, e1), Call(h.id, e2)] &&
            RulesFree(t) && t.hooks == s.hooks && t.nextId == s.nextId
  {
    DoRulesFree(s, [e1, e2]);
    DecidingPair(h, e1, e2);
  }

  lemma DecidingPair(h: Hook, e1: KeyEvent, e2: KeyEvent)
    requires h.scope == AllKeys && h.filter == AnyEvent && h.suppress
    ensures AcceptedBy([h], [e1, e2]) == (if h.verdict(e1) then [e1] else []) + (if h.verdict(e2) then [e2] else [])
    ensures CallsFor([h], [e1, e2]) == [Call(h.id, e1), Call(h.id, e2)]
  {
    assert Applies(h, e1) && Applies(h, e2) && Wants(h, e1) && Wants(h, e2);
    assert (Accepts([h], e1) <==> h.verdict(e1)) && (Accepts([h], e2) <==> h.verdict(e2)) by {
      OneHook(h, e1);
      OneHook(h, e2);
    }
    OneHookTwo(h, e1, e2);
    assert [Call(h.id, e1)] + [Call(h.id, e2)] == [Call(h.id, e1), Call(h.id, e2)];
  }

  /** `test_hook_blocking`, up to `unhook`: a suppressing hook that allows
      only `b` lets `d_b` through of `d_a + d_b`, and nothing is held back
      once it is removed; the counter reaches 2 and stays there. */
  lemma HookBlocking(a: string, b: string)
    requires a == "a" && b == "b"
    ensures var da, db := KeyEvent(Down, 1, Some(a)), KeyEvent(Down, 2, Some(b));
            var (s1, id1) := AddGlobalHook(Fresh(), (e: KeyEvent) => e.name == Some(b), true);
            var (o1, t1) := Do(s1, [da, db]);
            Unhook(t1, id1).Ok? &&
            var (o2, t2) := Do(Unhook(t1, id1).value, [da, db]);
            o1 == [db] && |t1.calls| == 2 &&
            o2 == [da, db] && t2.calls == [Call(id1, da), Call(id1, db)] && NoHook(t2)
  {
    var da, db := KeyEvent(Down, 1, Some(a)), KeyEvent(Down, 2, Some(b));
    var (s1, id1) := AddGlobalHook(Fresh(), (e: KeyEvent) => e.name == Some(b), true);
    DecidingHookTwo(s1, s1.hooks[0], da, db);
    var t1 := Do(s1, [da, db]).1;
    UnhookOnly(t1, s1.hooks[0]);
    NoHookTwo(Unhook(t1, id1).value, da, db);
  }

  /** `test_hook_blocking`, from the second `hook`: again only `d_b`
      passes, the counter reaches 4 and stays there after `unhook_all`, and
      every call sees `a` or `b`. */
  lemma HookBlockingAgain(a: string, b: string, t2: Session)
    requires a == "a" && b == "b" && NoHook(t2) && |t2.calls| == 2
    requires forall k :: 0 <= k < |t2.calls| ==> t2.calls[k].event.name in {Some(a), Some(b)}
    ensures var da, db := KeyEvent(Down, 1, Some(a)), KeyEvent(Down, 2, Some(b));
            var (s3, id3) := AddGlobalHook(t2, (e: KeyEvent) => e.name == Some(b), true);
            var (o3, t3) := Do(s3, [da, db]);
            var (o4, t4) := Do(UnhookAll(t3), [da, db]);
            o3 == [db] && |t3.calls| == 4 &&
            o4 == [da, db] && |t4.calls| == 4 &&
            forall k :: 0 <= k < |t4.calls| ==> t4.calls[k].event.name in {Some(a), Some(b)}
  {
    var da, db := KeyEvent(Down, 1, Some(a)), KeyEvent(Down, 2, Some(b));
    var verdict := (e: KeyEvent) => e.name == Some(b);
    var s3 := AddGlobalHook(t2, verdict, true).0;
    var h := Hook(t2.nextId, AllKeys, true, AnyEvent, verdict);
    assert s3 == t2.(hooks := [h], nextId := t2.nextId + 1);
    DecidingHookTwo(s3, h, da, db);
    assert !h.verdict(da) && h.verdict(db);
    var t3 := Do(s3, [da, db]).1;
    assert t3.calls == t2.calls + [Call(h.id, da), Call(h.id, db)];
    var u := UnhookAll(t3);
    assert RulesFree(u) && u.hooks == [] && u.output == [] && u.calls == t3.calls;
    NoHookTwo(u, da, db);
    var t4 := Do(u, [da, db]).1;
    assert t4.calls == t3.calls;
  }

  // ---------------------------------------------------------------------
  // on_press, on_release.

  /** `test_on_press_nonblocking`: the callback sees only the Down of `a`. */
  lemma OnPressNonblocking(a: string, callback: KeyEvent -> bool)
    requires a == "a"
    ensures var da, ua := KeyEvent(Down, 1, Some(a)), KeyEvent(Up, 1, Some(a));
            var (s1, id1) := OnPress(Fresh(), callback, false);
            var (o1, t1) := Do(s1, [da, ua]);
            o1 == [da, ua] && t1.calls == [Call(id1, da)]
  {
    var da, ua := KeyEvent(Down, 1, Some(a)), KeyEvent(Up, 1, Some(a));
    var (s1, id1) := OnPress(Fresh(), callback, false);
    DoRulesFree(s1, [da, ua]);
    OneHookTwo(s1.hooks[0], da, ua);
  }

  /** `test_on_press_blocking`: a suppressing `on_press` that allows code 1
      drops the Down of code -1. */
  lemma OnPressBlocking(a: string, upper: string)
    requires a == "a" && upper == "A"
    ensures var dA, da := KeyEvent(Down, -1, Some(upper)), KeyEvent(Down, 1, Some(a));
            var (s1, id1) := OnPress(Fresh(), (e: KeyEvent) => e.code == 1, true);
            Do(s1, [dA, da]).0 == [da]
  {
    var dA, da := KeyEvent(Down, -1, Some(upper)), KeyEvent(Down, 1, Some(a));
    var (s1, id1) := OnPress(Fresh(), (e: KeyEvent) => e.code == 1, true);
    DoRulesFree(s1, [dA, da]);
    OneHookTwo(s1.hooks[0], dA, da);
  }

  /** `test_on_release`: the callback sees only the Up of `a`. */
  lemma OnReleaseNonblocking(a: string, callback: KeyEvent -> bool)
    requires a == "a"
    ensures var da, ua := KeyEvent(Down, 1, Some(a)), KeyEvent(Up, 1, Some(a));
            var (s1, id1) := OnRelease(Fresh(), callback, false);
            var (o1, t1) := Do(s1, [da, ua]);
            o1 == [da, ua] && t1.calls == [Call(id1, ua)]
  {
    var da, ua := KeyEvent(Down, 1, Some(a)), KeyEvent(Up, 1, Some(a));
    var (s1, id1) := OnRelease(Fresh(), callback, false);
    DoRulesFree(s1, [da, ua]);
    OneHookTwo(s1.hooks[0], da, ua);
  }

  // ---------------------------------------------------------------------
  // hook_key and unhook_key.

  /** `test_hook_key_invalid`: a name the table lacks cannot be hooked. */
  lemma HookKeyInvalid(n: string, callback: KeyEvent -> bool, suppress: bool)
    requires n == "invalid"
    ensures HookKey(Fresh(), Name(n), callback, suppress, AnyEvent) == Err(InvalidKey)
  {
    InvalidKeys(n);
  }

  /** `hook_key('A')` on a fresh session: one hook on codes 1 and -1. */
  lemma HookUpperA(upper: string, callback: KeyEvent -> bool, suppress: bool, filter: Filter)
    requires upper == "A"
    ensures HookKey(Fresh(), Name(upper), callback, suppress, filter).Ok?
    ensures var (s1, id1) := HookKey(Fresh(), Name(upper), callback, suppress, filter).value;
            RulesFree(s1) && s1.hooks == [Hook(id1, OnKey(Name(upper), [1, -1]), suppress, filter, callback)] &&
            s1.calls == [] && s1.output == []
  {
    UpperA(upper);
  }

  /** The session holds the hook `h` and nothing else that can decide on
      an event, and has emitted nothing since the last `do`. */
  ghost predicate OnlyHook(s: Session, h: Hook)
  {
    RulesFree(s) && s.hooks == [h] && s.output == []
  }

  /** One `do` on a session whose only registration is the hook `h`: the
      hook alone filters the events, the session keeps it, and the calls
      grow by what `CallsFor` lists. */
  lemma OneHookPhase(s: Session, h: Hook, events: seq<KeyEvent>, calls: seq<Call>, out: seq<KeyEvent>)
    requires OnlyHook(s, h)
    requires CallsFor([h], events) == calls && AcceptedBy([h], events) == out
    ensures var (o, t) := Do(s, events);
            o == out && OnlyHook(t, h) && t.calls == s.calls + calls
  {
    DoRulesFree(s, events);
  }

  /** One `do` of a single event on a session with no hook at all. */
  lemma NoHookPhase(s: Session, e: KeyEvent)
    requires RulesFree(s) && s.hooks == [] && s.output == []
    ensures var (o, t) := Do(s, [e]);
            o == [e] && t.calls == s.calls
  {
    DoRulesFree(s, [e]);
    NoHooks([e]);
  }

  /** The hook `hook_key('A', callback, suppress)` registers, with handle `id`. */
  ghost predicate HookOnUpperA(h: Hook, upper: string, suppress: bool, filter: Filter, callback: KeyEvent -> bool)
  {
    h.scope == OnKey(Name(upper), [1, -1]) && h.suppress == suppress && h.filter == filter && h.verdict == callback
  }

  /** The non-suppressing hook on `A` is reached by, and forwards, a Down
      of either of the codes `A` maps to. */
  lemma UpperAReached(h: Hook, upper: string, count: KeyEvent -> bool, e: KeyEvent)
    requires upper == "A" && HookOnUpperA(h, upper, false, AnyEvent, count)
    requires e.kind == Down && (e.code == 1 || e.code == -1)
    ensures CallsFor([h], [e]) == [Call(h.id, e)] && AcceptedBy([h], [e]) == [e]
  {
    OneHookOne(h, e);
  }

  /** `test_hook_key_nonblocking`, first `do`: the hook on `A` is called
      for the Down of `a`, code 1. */
  lemma HookKeyNonblocking(a: string, upper: string, count: KeyEvent -> bool)
    requires a == "a" && upper == "A"
    ensures HookKey(Fresh(), Name(upper), count, false, AnyEvent).Ok?
    ensures var (s1, id1) := HookKey(Fresh(), Name(upper), count, false, AnyEvent).value;
            var (o1, t1) := Do(s1, [KeyEvent(Down, 1, Some(a))]);
            o1 == [KeyEvent(Down, 1, Some(a))] && |t1.calls| == 1 &&
            OnlyHook(t1, s1.hooks[0]) && HookOnUpperA(s1.hooks[0], upper, false, AnyEvent, count)
  {
    var da := KeyEvent(Down, 1, Some(a));
    HookUpperA(upper, count, false, AnyEvent);
    var s1 := HookKey(Fresh(), Name(upper), count, false, AnyEvent).value.0;
    var h := s1.hooks[0];
    assert OnlyHook(s1, h) && HookOnUpperA(h, upper, false, AnyEvent, count) && s1.calls == [];
    UpperAReached(h, upper, count, da);
    OneHookPhase(s1, h, [da], [Call(h.id, da)], [da]);
    var t1 := Do(s1, [da]).1;
    assert t1.calls == [Call(h.id, da)];
  }

  /** `test_hook_key_nonblocking`, second `do`: of `u_a + d_b` only the Up
      of `a` reaches the hook, and the counter moves to 2. */
  lemma HookKeyNonblockingRelease(a: string, b: string, upper: string, count: KeyEvent -> bool, t1: Session, h: Hook)
    requires a == "a" && b == "b" && upper == "A"
    requires OnlyHook(t1, h) && HookOnUpperA(h, upper, false, AnyEvent, count) && |t1.calls| == 1
    ensures var ua, db := KeyEvent(Up, 1, Some(a)), KeyEvent(Down, 2, Some(b));
            var (o2, t2) := Do(t1, [ua, db]);
            o2 == [ua, db] && |t2.calls| == 2 && OnlyHook(t2, h)
  {
    var ua, db := KeyEvent(Up, 1, Some(a)), KeyEvent(Down, 2, Some(b));
    assert CallsFor([h], [ua, db]) == [Call(h.id, ua)] && AcceptedBy([h], [ua, db]) == [ua, db] by { OneHookTwo(h, ua, db); }
    OneHookPhase(t1, h, [ua, db], [Call(h.id, ua)], [ua, db]);
  }

  /** `test_hook_key_nonblocking`, third `do`: the Down of code -1 is an
      `A` too, and the counter moves to 3. */
  lemma HookKeyNonblockingAlternate(upper: string, count: KeyEvent -> bool, t2: Session, h: Hook)
    requires upper == "A"
    requires OnlyHook(t2, h) && HookOnUpperA(h, upper, false, AnyEvent, count) && |t2.calls| == 2
    ensures var dA := KeyEvent(Down, -1, Some(upper));
            var (o3, t3) := Do(t2, [dA]);
            o3 == [dA] && |t3.calls| == 3 && OnlyHook(t3, h)
  {
    var dA := KeyEvent(Down, -1, Some(upper));
    UpperAReached(h, upper, count, dA);
    OneHookPhase(t2, h, [dA], [Call(h.id, dA)], [dA]);
  }

  /** `test_hook_key_nonblocking`, last `do`: once `unhook_key('A')`
      removed the hook, the Down of `a` no longer moves the counter. */
  lemma HookKeyNonblockingRemoved(a: string, upper: string, count: KeyEvent -> bool, t3: Session, h: Hook)
    requires a == "a" && upper == "A"
    requires OnlyHook(t3, h) && HookOnUpperA(h, upper, false, AnyEvent, count) && |t3.calls| == 3
    ensures UnhookKey(t3, Name(upper)).Ok?
    ensures var da := KeyEvent(Down, 1, Some(a));
            var (o4, t4) := Do(UnhookKey(t3, Name(upper)).value, [da]);
            o4 == [da] && |t4.calls| == 3
  {
    UnhookKeyOnly(t3, h, Name(upper));
    NoHookPhase(UnhookKey(t3, Name(upper)).value, KeyEvent(Down, 1, Some(a)));
  }

  /** `test_hook_key_blocking`, first `do`: a suppressing hook on `A` that
      allows code 1 forwards `d_a`. */
  lemma HookKeyBlocking(a: string, upper: string)
    requires a == "a" && upper == "A"
    ensures var count := (e: KeyEvent) => e.code == 1;
            HookKey(Fresh(), Name(upper), count, true, AnyEvent).Ok? &&
            var (s1, id1) := HookKey(Fresh(), Name(upper), count, true, AnyEvent).value;
            var (o1, t1) := Do(s1, [KeyEvent(Down, 1, Some(a))]);
            o1 == [KeyEvent(Down, 1, Some(a))] && |t1.calls| == 1 &&
            OnlyHook(t1, s1.hooks[0]) && HookOnUpperA(s1.hooks[0], upper, true, AnyEvent, count)
  {
    var da := KeyEvent(Down, 1, Some(a));
    var count := (e: KeyEvent) => e.code == 1;
    HookUpperA(upper, count, true, AnyEvent);
    var s1 := HookKey(Fresh(), Name(upper), count, true, AnyEvent).value.0;
    var h := s1.hooks[0];
    assert CallsFor([h], [da]) == [Call(h.id, da)] && AcceptedBy([h], [da]) == [da] by { OneHookOne(h, da); }
    OneHookPhase(s1, h, [da], [Call(h.id, da)], [da]);
  }

  /** `test_hook_key_blocking`, second `do`: `u_a + d_b` both pass; the
      hook is asked about `u_a` only, and allows it. */
  lemma HookKeyBlockingRelease(a: string, b: string, upper: string, t1: Session, h: Hook)
    requires a == "a" && b == "b" && upper == "A"
    requires OnlyHook(t1, h) && HookOnUpperA(h, upper, true, AnyEvent, (e: KeyEvent) => e.code == 1) && |t1.calls| == 1
    ensures var ua, db := KeyEvent(Up, 1, Some(a)), KeyEvent(Down, 2, Some(b));
            var (o2, t2) := Do(t1, [ua, db]);
            o2 == [ua, db] && |t2.calls| == 2 && OnlyHook(t2, h)
  {
    var ua, db := KeyEvent(Up, 1, Some(a)), KeyEvent(Down, 2, Some(b));
    assert CallsFor([h], [ua, db]) == [Call(h.id, ua)] && AcceptedBy([h], [ua, db]) == [ua, db] by { OneHookTwo(h, ua, db); }
    OneHookPhase(t1, h, [ua, db], [Call(h.id, ua)], [ua, db]);
  }

  /** `test_hook_key_blocking`, third `do`: the hook refuses the Down of
      code -1, which is dropped. */
  lemma HookKeyBlockingAlternate(upper: string, t2: Session, h: Hook)
    requires upper == "A"
    requires OnlyHook(t2, h) && HookOnUpperA(h, upper, true, AnyEvent, (e: KeyEvent) => e.code == 1) && |t2.calls| == 2
    ensures var dA := KeyEvent(Down, -1, Some(upper));
            var (o3, t3) := Do(t2, [dA]);
            o3 == [] && |t3.calls| == 3 && OnlyHook(t3, h)
  {
    var dA := KeyEvent(Down, -1, Some(upper));
    RefusedByBlockingHook(h, upper, dA);
    OneHookPhase(t2, h, [dA], [Call(h.id, dA)], []);
  }

  /** The blocking hook on `A` is called for the Down of code -1 and
      refuses it. */
  lemma RefusedByBlockingHook(h: Hook, upper: string, dA: KeyEvent)
    requires upper == "A" && dA == KeyEvent(Down, -1, Some(upper))
    requires HookOnUpperA(h, upper, true, AnyEvent, (e: KeyEvent) => e.code == 1)
    ensures CallsFor([h], [dA]) == [Call(h.id, dA)] && AcceptedBy([h], [dA]) == []
  {
    OneHookOne(h, dA);
  }

  /** `test_hook_key_blocking`, last `do`: once `unhook_key('A')` removed
      the hook, the Down of code -1 passes and nothing is called. */
  lemma HookKeyBlockingRemoved(upper: string, t3: Session, h: Hook)
    requires upper == "A"
    requires OnlyHook(t3, h) && HookOnUpperA(h, upper, true, AnyEvent, (e: KeyEvent) => e.code == 1) && |t3.calls| == 3
    ensures UnhookKey(t3, Name(upper)).Ok?
    ensures var dA := KeyEvent(Down, -1, Some(upper));
            var (o4, t4) := Do(UnhookKey(t3, Name(upper)).value, [dA]);
            o4 == [dA] && |t4.calls| == 3
  {
    UnhookKeyOnly(t3, h, Name(upper));
    NoHookPhase(UnhookKey(t3, Name(upper)).value, KeyEvent(Down, -1, Some(upper)));
  }

  /** `test_on_press_key_nonblocking`: `on_press_key('A', callback)`
      registers one hook on codes 1 and -1 that sees Downs only. */
  lemma OnPressKeyNonblocking(upper: string, callback: KeyEvent -> bool)
    requires upper == "A"
    ensures OnPressKey(Fresh(), Name(upper), callback, false).Ok?
    ensures var s1 := OnPressKey(Fresh(), Name(upper), callback, false).value.0;
            |s1.hooks| == 1 && OnlyHook(s1, s1.hooks[0]) && s1.calls == [] &&
            HookOnUpperA(s1.hooks[0], upper, false, DownsOnly, callback)
  {
    HookUpperA(upper, callback, false, DownsOnly);
  }

  /** `test_on_press_key_nonblocking`, its `do`: of `du_a + du_b` every
      event passes and the callback sees only the Down of `a`. */
  lemma OnPressKeyNonblockingDo(a: string, b: string, upper: string, callback: KeyEvent -> bool, s1: Session, h: Hook, events: seq<KeyEvent>)
    requires a == "a" && b == "b" && upper == "A"
    requires OnlyHook(s1, h) && HookOnUpperA(h, upper, false, DownsOnly, callback) && s1.calls == []
    requires events == [KeyEvent(Down, 1, Some(a)), KeyEvent(Up, 1, Some(a)), KeyEvent(Down, 2, Some(b)), KeyEvent(Up, 2, Some(b))]
    ensures var (o1, t1) := Do(s1, events);
            o1 == events && t1.calls == [Call(h.id, events[0])]
  {
    var da, ua := KeyEvent(Down, 1, Some(a)), KeyEvent(Up, 1, Some(a));
    var db, ub := KeyEvent(Down, 2, Some(b)), KeyEvent(Up, 2, Some(b));
    OnPressKeyFour(a, b, upper, callback, h, events);
    OneHookPhase(s1, h, events, [Call(h.id, da)], events);
  }

  lemma OnPressKeyFour(a: string, b: string, upper: string, callback: KeyEvent -> bool, h: Hook, events: seq<KeyEvent>)
    requires a == "a" && b == "b" && upper == "A"
    requires HookOnUpperA(h, upper, false, DownsOnly, callback)
    requires events == [KeyEvent(Down, 1, Some(a)), KeyEvent(Up, 1, Some(a)), KeyEvent(Down, 2, Some(b)), KeyEvent(Up, 2, Some(b))]
    ensures CallsFor([h], events) == [Call(h.id, events[0])] && AcceptedBy([h], events) == events
  {
    assert Applies(h, events[0]) && !Applies(h, events[2]);
    DownsOnlyFour(h, events[0], events[1], events[2], events[3]);
    assert [events[0], events[1], events[2], events[3]] == events;
  }

  /** A non-suppressing hook that sees Downs only, over the press and
      release of a key it is on and then of one it is not on. */
  lemma DownsOnlyFour(h: Hook, d1: KeyEvent, u1: KeyEvent, d2: KeyEvent, u2: KeyEvent)
    requires !h.suppress && h.filter == DownsOnly
    requires d1.kind == Down && u1.kind == Up && d2.kind == Down && u2.kind == Up
    requires Applies(h, d1) && !Applies(h, d2)
    ensures CallsFor([h], [d1, u1, d2, u2]) == [Call(h.id, d1)]
    ensures AcceptedBy([h], [d1, u1, d2, u2]) == [d1, u1, d2, u2]
  {
    assert [d1, u1] + [d2, u2] == [d1, u1, d2, u2];
    DownsOnlyPair(h, d1, u1, true);
    DownsOnlyPair(h, d2, u2, false);
    AcceptedByConcat([h], [d1, u1], [d2, u2]);
    CallsForConcat([h], [d1, u1], [d2, u2]);
    assert [Call(h.id, d1)] + [] == [Call(h.id, d1)];
  }

  /** A non-suppressing hook that sees Downs only, over a press and release
      of one key: both pass, and the hook is called for the Down when it is
      offered the key. */
  lemma DownsOnlyPair(h: Hook, d: KeyEvent, u: KeyEvent, offered: bool)
    requires !h.suppress && h.filter == DownsOnly && d.kind == Down && u.kind == Up
    requires Applies(h, d) == offered
    ensures AcceptedBy([h], [d, u]) == [d, u]
    ensures CallsFor([h], [d, u]) == if offered then [Call(h.id, d)] else []
  {
    assert Accepts([h], d) && Accepts([h], u) by { OneHook(h, d); OneHook(h, u); }
    assert Wants(h, d) && !Wants(h, u);
    OneHookTwo(h, d, u);
    assert [d] + [u] == [d, u];
  }

  lemma {:induction false} AcceptedByConcat(hooks: seq<Hook>, xs: seq<KeyEvent>, ys: seq<KeyEvent>)
    ensures AcceptedBy(hooks, xs + ys) == AcceptedBy(hooks, xs) + AcceptedBy(hooks, ys)
    decreases |xs|
  {
    if xs == [] {
      assert xs + ys == ys;
    } else {
      assert (xs + ys)[0] == xs[0] && (xs + ys)[1..] == xs[1..] + ys;
      AcceptedByConcat(hooks, xs[1..], ys);
    }
  }

  lemma {:induction false} CallsForConcat(hooks: seq<Hook>, xs: seq<KeyEvent>, ys: seq<KeyEvent>)
    ensures CallsFor(hooks, xs + ys) == CallsFor(hooks, xs) + CallsFor(hooks, ys)
    decreases |xs|
  {
    if xs == [] {
      assert xs + ys == ys;
    } else {
      assert (xs + ys)[0] == xs[0] && (xs + ys)[1..] == xs[1..] + ys;
      CallsForConcat(hooks, xs[1..], ys);
    }
  }

  /** `test_on_press_key_blocking`: a suppressing `on_press_key('A')` that
      allows code 1 drops the Down of code -1. */
  lemma OnPressKeyBlocking(a: string, upper: string)
    requires a == "a" && upper == "A"
    ensures var dA, da := KeyEvent(Down, -1, Some(upper)), KeyEvent(Down, 1, Some(a));
            OnPressKey(Fresh(), Name(upper), (e: KeyEvent) => e.code == 1, true).Ok? &&
            var (s1, id1) := OnPressKey(Fresh(), Name(upper), (e: KeyEvent) => e.code == 1, true).value;
            Do(s1, [dA, da]).0 == [da]
  {
    var dA, da := KeyEvent(Down, -1, Some(upper)), KeyEvent(Down, 1, Some(a));
    HookUpperA(upper, (e: KeyEvent) => e.code == 1, true, DownsOnly);
    var (s1, id1) := OnPressKey(Fresh(), Name(upper), (e: KeyEvent) => e.code == 1, true).value;
    DoRulesFree(s1, [dA, da]);
    OneHookTwo(s1.hooks[0], dA, da);
  }

  /** `test_on_release_key`: the callback on `a` sees only its Up. */
  lemma OnReleaseKeyNonblocking(a: string, callback: KeyEvent -> bool)
    requires a == "a"
    ensures var da, ua := KeyEvent(Down, 1, Some(a)), KeyEvent(Up, 1, Some(a));
            OnReleaseKey(Fresh(), Name(a), callback, false).Ok? &&
            var (s1, id1) := OnReleaseKey(Fresh(), Name(a), callback, false).value;
            var (o1, t1) := Do(s1, [da, ua]);
            o1 == [da, ua] && t1.calls == [Call(id1, ua)]
  {
    var da, ua := KeyEvent(Down, 1, Some(a)), KeyEvent(Up, 1, Some(a));
    LetterA(a);
    var (s1, id1) := OnReleaseKey(Fresh(), Name(a), callback, false).value;
    assert OnlyHook(s1, s1.hooks[0]) && s1.calls == [];
    var h := s1.hooks[0];
    assert h == Hook(id1, OnKey(Name(a), [1]), false, UpsOnly, callback);
    UpsOnlyPair(h, da, ua);
    OneHookPhase(s1, h, [da, ua], [Call(id1, ua)], [da, ua]);
  }

  /** A non-suppressing hook that sees Ups only, over a press and release
      of a key it is on: both pass, and the hook is called for the Up. */
  lemma UpsOnlyPair(h: Hook, d: KeyEvent, u: KeyEvent)
    requires !h.suppress && h.filter == UpsOnly && d.kind == Down && u.kind == Up && Applies(h, u)
    ensures AcceptedBy([h], [d, u]) == [d, u]
    ensures CallsFor([h], [d, u]) == [Call(h.id, u)]
  {
    assert Accepts([h], d) && Accepts([h], u) by { OneHook(h, d); OneHook(h, u); }
    assert !Wants(h, d) && Wants(h, u);
    OneHookTwo(h, d, u);
    assert [d] + [u] == [d, u] && [] + [Call(h.id, u)] == [Call(h.id, u)];
  }
}
