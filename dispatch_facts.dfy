/** Properties of the dispatch pipeline that hold for every session and
    every event: what a session without rules forwards, what blocks, remaps
    and the verdict rule do to one event, how the pressed state follows
    Downs and Ups, and what the hotkey automaton does with one event. */
module DispatchFacts {
  import opened Events
  import opened Listener

  // ---------------------------------------------------------------------
  // Sessions without rules.

  /** No block, remap or suppressing hotkey is registered and no remapped
      key is held: only hooks can decide. */
  predicate RulesFree(s: Session)
  {
    s.blocks == [] && s.remaps == [] && s.outstanding == map[] && s.parts == []
  }

  /** Nothing can hold an event back: no rules and no suppressing hook. */
  predicate Transparent(s: Session)
  {
    RulesFree(s) && forall i :: 0 <= i < |s.hooks| ==> !s.hooks[i].suppress
  }

  /** The events a hook list lets through, in order. */
  function AcceptedBy(hooks: seq<Hook>, events: seq<KeyEvent>): (r: seq<KeyEvent>)
    ensures |r| <= |events|
    ensures forall k :: 0 <= k < |r| ==> r[k] in events && Accepts(hooks, r[k])
    decreases |events|
  {
    if events == [] then []
    else
      var rest := AcceptedBy(hooks, events[1..]);
      assert forall k :: 0 <= k < |rest| ==> rest[k] in events;
      (if Accepts(hooks, events[0]) then [events[0]] else []) + rest
  }

  /** Without a suppressing hook no callback decides and everything passes. */
  lemma {:induction false} NoSuppressingHook(hooks: seq<Hook>, e: KeyEvent)
    requires forall i :: 0 <= i < |hooks| ==> !hooks[i].suppress
    ensures CallsOf(hooks, e, true) == [] && Accepts(hooks, e)
    decreases |hooks|
  {
    if hooks != [] {
      var init := hooks[..|hooks| - 1];
      assert forall i :: 0 <= i < |init| ==> init[i] == hooks[i];
      NoSuppressingHook(init, e);
      assert !hooks[|hooks| - 1].suppress;
    }
  }

  lemma {:induction false} AcceptedByAll(hooks: seq<Hook>, events: seq<KeyEvent>)
    requires forall i :: 0 <= i < |hooks| ==> !hooks[i].suppress
    ensures AcceptedBy(hooks, events) == events
    decreases |events|
  {
    if events != [] {
      NoSuppressingHook(hooks, events[0]);
      AcceptedByAll(hooks, events[1..]);
      assert [events[0]] + events[1..] == events;
    }
  }

  /** With no rules, one event reaches the hooks and nothing else: it is
      forwarded exactly when the verdict rule accepts it. */
  lemma StepRulesFree(s: Session, e: KeyEvent)
    requires RulesFree(s)
    ensures var t := Step(s, e);
            RulesFree(t) && t.hooks == s.hooks && t.nextId == s.nextId &&
            t.pressed == Track(s.pressed, e) &&
            t.output == s.output + (if Accepts(s.hooks, e) then [e] else []) &&
            t.recording == (if Accepts(s.hooks, e) then Record(s.recording, e) else s.recording) &&
            t.calls == s.calls + CallsOf(s.hooks, e, true) + (if Accepts(s.hooks, e) then CallsOf(s.hooks, e, false) else [])
  {
    var s1 := s.(pressed := Track(s.pressed, e));
    assert !Blocked(s1.blocks, e.code);
    assert RemapTarget(s1.remaps, e.code).None?;
    assert RunParts(s1, e, 0) == (s1, false);
  }

  /** `StepRulesFree`, on the output alone. */
  lemma StepRulesFreeOutput(s: Session, e: KeyEvent)
    requires RulesFree(s)
    ensures RulesFree(Step(s, e)) && Step(s, e).hooks == s.hooks
    ensures Step(s, e).output == s.output + (if Accepts(s.hooks, e) then [e] else [])
  {
    StepRulesFree(s, e);
  }

  /** `StepRulesFree`, on the callbacks alone. */
  lemma StepRulesFreeCalls(s: Session, e: KeyEvent)
    requires RulesFree(s)
    ensures RulesFree(Step(s, e)) && Step(s, e).hooks == s.hooks
    ensures Step(s, e).calls == s.calls + (CallsOf(s.hooks, e, true) + (if Accepts(s.hooks, e) then CallsOf(s.hooks, e, false) else []))
  {
    StepRulesFree(s, e);
  }

  /** `StepRulesFree`, on the recording of a transparent session. */
  lemma StepTransparentRecord(s: Session, e: KeyEvent)
    requires Transparent(s)
    ensures Transparent(Step(s, e)) && Step(s, e).recording == Record(s.recording, e)
  {
    NoSuppressingHook(s.hooks, e);
    StepRulesFree(s, e);
  }

  /** With no rules, a list of events leaves the rules, hooks and handles
      as they were, and the pressed state follows every event, forwarded or
      not. */
  lemma {:induction false} InjectRulesFreeState(s: Session, events: seq<KeyEvent>)
    requires RulesFree(s)
    ensures var t := Inject(s, events);
            RulesFree(t) && t.hooks == s.hooks && t.nextId == s.nextId &&
            t.pressed == TrackAll(s.pressed, events)
    decreases |events|
  {
    if events != [] {
      StepRulesFree(s, events[0]);
      InjectRulesFreeState(Step(s, events[0]), events[1..]);
    }
  }

  /** With no rules, a list of events is filtered by the hooks alone. */
  lemma {:induction false} InjectRulesFree(s: Session, events: seq<KeyEvent>)
    requires RulesFree(s)
    ensures Inject(s, events).output == s.output + AcceptedBy(s.hooks, events)
    decreases |events|
  {
    if events != [] {
      var e := events[0];
      StepRulesFreeOutput(s, e);
      var s1 := Step(s, e);
      assert Inject(s, events) == Inject(s1, events[1..]);
      InjectRulesFree(s1, events[1..]);
      var head := if Accepts(s.hooks, e) then [e] else [];
      assert AcceptedBy(s.hooks, events) == head + AcceptedBy(s.hooks, events[1..]);
      ConcatAssoc(s.output, head, AcceptedBy(s.hooks, events[1..]));
    } else {
      assert s.output + [] == s.output;
    }
  }

  /** With nothing to hold events back, injected events reach the output as
      they are, and nothing comes to hold them back. */
  lemma InjectTransparent(s: Session, events: seq<KeyEvent>)
    requires Transparent(s)
    ensures var t := Inject(s, events);
            Transparent(t) && t.hooks == s.hooks && t.nextId == s.nextId &&
            t.pressed == TrackAll(s.pressed, events) &&
            t.output == s.output + events
  {
    InjectRulesFreeState(s, events);
    InjectRulesFree(s, events);
    AcceptedByAll(s.hooks, events);
  }

  /** The callbacks a list of events reaches, in order, on a session
      without rules: for each event the suppressing hooks, then, when it is
      accepted, the others. */
  function CallsFor(hooks: seq<Hook>, events: seq<KeyEvent>): seq<Call>
    decreases |events|
  {
    if events == [] then []
    else
      var e := events[0];
      CallsOf(hooks, e, true) + (if Accepts(hooks, e) then CallsOf(hooks, e, false) else []) + CallsFor(hooks, events[1..])
  }

  /** With no rules, the callbacks reached are those `CallsFor` lists. */
  lemma {:induction false} InjectRulesFreeCalls(s: Session, events: seq<KeyEvent>)
    requires RulesFree(s)
    ensures Inject(s, events).calls == s.calls + CallsFor(s.hooks, events)
    decreases |events|
  {
    if events != [] {
      var e := events[0];
      StepRulesFreeCalls(s, e);
      var s1 := Step(s, e);
      assert Inject(s, events) == Inject(s1, events[1..]);
      InjectRulesFreeCalls(s1, events[1..]);
      ConcatAssoc(s.calls, CallsOf(s.hooks, e, true) + (if Accepts(s.hooks, e) then CallsOf(s.hooks, e, false) else []),
                  CallsFor(s.hooks, events[1..]));
    } else {
      assert s.calls + [] == s.calls;
    }
  }

  /** A recording whose hook is installed records every event a transparent
      session forwards. */
  lemma {:induction false} InjectRecords(s: Session, events: seq<KeyEvent>)
    requires Transparent(s)
    ensures s.recording.Some? && s.recording.value.hooked ==>
              Inject(s, events).recording == Some(Recording(s.recording.value.events + events, true))
    ensures Inject(s, events).recording.None? <==> s.recording.None?
    decreases |events|
  {
    if events != [] {
      var e := events[0];
      StepTransparentRecord(s, e);
      assert Inject(s, events) == Inject(Step(s, e), events[1..]);
      InjectRecords(Step(s, e), events[1..]);
      if s.recording.Some? && s.recording.value.hooked {
        assert s.recording.value.events + [e] + events[1..] == s.recording.value.events + events;
      }
    } else if s.recording.Some? && s.recording.value.hooked {
      assert s.recording.value.events + [] == s.recording.value.events;
    }
  }

  /** One step leaves a recording whose hook is gone as it was: hotkey
      automata and hooks do not touch it, and its own hook no longer sees
      the event. */
  lemma StepUnhookedRecording(s: Session, e: KeyEvent)
    requires s.recording.None? || !s.recording.value.hooked
    ensures Step(s, e).recording == s.recording
  {
  }

  /** Once a recording's hook is gone, no event changes it, whatever the
      session's rules, automata and hooks. */
  lemma {:induction false} InjectUnhookedRecording(s: Session, events: seq<KeyEvent>)
    requires s.recording.None? || !s.recording.value.hooked
    ensures Inject(s, events).recording == s.recording
    decreases |events|
  {
    if events != [] {
      StepUnhookedRecording(s, events[0]);
      assert Inject(s, events) == Inject(Step(s, events[0]), events[1..]);
      InjectUnhookedRecording(Step(s, events[0]), events[1..]);
    }
  }

  // ---------------------------------------------------------------------
  // The verdict rule.

  /** A single suppressing hook offered the event forwards it exactly when
      it says so (or, behind an `on_press`/`on_release` filter, when the
      event is of the other kind). */
  lemma SingleSuppressingHook(h: Hook, e: KeyEvent)
    requires h.suppress && Applies(h, e)
    ensures Accepts([h], e) <==> Allows(h, e)
    ensures Allows(h, e) <==> !Wants(h, e) || h.verdict(e)
  {
    assert [h][0] == h;
  }

  /** A hook that does not suppress never changes the verdict. */
  lemma NonSuppressingIrrelevant(hooks: seq<Hook>, h: Hook, e: KeyEvent)
    requires !h.suppress
    ensures Accepts(hooks + [h], e) <==> Accepts(hooks, e)
  {
    var all := hooks + [h];
    assert forall i :: 0 <= i < |hooks| ==> all[i] == hooks[i];
    if Guarded(all, e) {
      var i :| 0 <= i < |all| && all[i].suppress && Applies(all[i], e);
      assert i < |hooks|;
    }
    if Allowed(all, e) {
      var i :| 0 <= i < |all| && all[i].suppress && Applies(all[i], e) && Allows(all[i], e);
      assert i < |hooks|;
    }
  }

  /** One suppressing hook that allows the event outweighs any number that
      do not. */
  lemma OneAllowSuffices(hooks: seq<Hook>, i: nat, e: KeyEvent)
    requires i < |hooks| && hooks[i].suppress && Applies(hooks[i], e) && Allows(hooks[i], e)
    ensures Accepts(hooks, e)
  {
  }

  /** A hook behind the `on_press` filter is never consulted on an Up (and
      one behind `on_release` never on a Down). */
  lemma FilterSkipsOtherKind(h: Hook, e: KeyEvent)
    requires (h.filter == DownsOnly && e.kind == Up) || (h.filter == UpsOnly && e.kind == Down)
    ensures !Wants(h, e) && Allows(h, e)
    ensures CallsOf([h], e, h.suppress) == []
  {
    assert [h][..0] == [];
  }

  // ---------------------------------------------------------------------
  // Blocks and remaps.

  /** A blocked code is dropped before any hotkey or hook sees it; only the
      pressed state notes it. */
  lemma BlockedDropped(s: Session, e: KeyEvent)
    requires Blocked(s.blocks, e.code)
    ensures Step(s, e) == s.(pressed := Track(s.pressed, e))
  {
  }

  /** An event no rule, automaton or hook can decide is forwarded as it is;
      only the pressed state and the recording note it. */
  lemma PlainStep(s: Session, e: KeyEvent)
    requires !Blocked(s.blocks, e.code) && RemapTarget(s.remaps, e.code).None?
    requires e.kind == Up ==> e.code !in s.outstanding
    requires s.parts == [] && s.hooks == []
    ensures Step(s, e) == s.(pressed := Track(s.pressed, e), output := s.output + [e], recording := Record(s.recording, e))
  {
  }

  /** The events of `events` whose code no block covers, in order. */
  function Unblocked(blocks: seq<Block>, events: seq<KeyEvent>): (r: seq<KeyEvent>)
    ensures |r| <= |events|
    ensures forall k :: 0 <= k < |r| ==> r[k] in events && !Blocked(blocks, r[k].code)
    decreases |events|
  {
    if events == [] then []
    else
      var rest := Unblocked(blocks, events[1..]);
      assert forall k :: 0 <= k < |rest| ==> rest[k] in events;
      if Blocked(blocks, events[0].code) then rest else [events[0]] + rest
  }

  /** Blocks are the only rules, and no hook is registered. */
  predicate BlocksOnly(s: Session)
  {
    s.remaps == [] && s.outstanding == map[] && s.parts == [] && s.hooks == []
  }

  /** `BlocksOnly`, for one event: it is forwarded unless its code is blocked. */
  lemma BlocksOnlyStep(s: Session, e: KeyEvent)
    requires BlocksOnly(s)
    ensures var t := Step(s, e);
            BlocksOnly(t) && t.blocks == s.blocks && t.nextId == s.nextId && t.calls == s.calls &&
            t.output == s.output + (if Blocked(s.blocks, e.code) then [] else [e])
  {
    if Blocked(s.blocks, e.code) {
      BlockedDropped(s, e);
    } else {
      PlainStep(s, e);
    }
  }

  /** A session whose only rules are blocks keeps them, and its handles
      and calls, through any list of events. */
  lemma {:induction false} InjectBlocksOnlyState(s: Session, events: seq<KeyEvent>)
    requires BlocksOnly(s)
    ensures var t := Inject(s, events);
            BlocksOnly(t) && t.blocks == s.blocks && t.nextId == s.nextId && t.calls == s.calls
    decreases |events|
  {
    if events != [] {
      BlocksOnlyStep(s, events[0]);
      InjectBlocksOnlyState(Step(s, events[0]), events[1..]);
    }
  }

  /** A session whose only rules are blocks: `do` forwards exactly the
      events whose code is not blocked. */
  lemma {:induction false} InjectBlocksOnly(s: Session, events: seq<KeyEvent>)
    requires BlocksOnly(s)
    ensures Inject(s, events).output == s.output + Unblocked(s.blocks, events)
    decreases |events|
  {
    if events != [] {
      var e := events[0];
      BlocksOnlyStep(s, e);
      var s1 := Step(s, e);
      assert Inject(s, events) == Inject(s1, events[1..]);
      InjectBlocksOnly(s1, events[1..]);
      var head := if Blocked(s.blocks, e.code) then [] else [e];
      assert s.output + head + Unblocked(s.blocks, events[1..]) == s.output + Unblocked(s.blocks, events);
    }
  }

  /** What a session whose only rule is one suppressing hotkey does with an
      event its blocks and remaps do not decide: the automaton's emissions
      come first, the event follows unless the automaton claims it, and the
      automaton's callback is recorded when it fires. */
  lemma OnePartStep(s: Session, e: KeyEvent)
    requires !Blocked(s.blocks, e.code) && RemapTarget(s.remaps, e.code).None?
    requires e.kind == Up ==> e.code !in s.outstanding
    requires |s.parts| == 1 && s.hooks == []
    ensures var o := PartStep(s.parts[0], e);
            var t := Step(s, e);
            t.pressed == TrackAll(Track(s.pressed, e), o.emit) && t.parts == [o.part] &&
            t.calls == s.calls + (if o.fired then [Call(s.parts[0].id, e)] else []) &&
            t.output == (if o.claimed then s.output + o.emit else s.output + o.emit + [e]) &&
            t.blocks == s.blocks && t.remaps == s.remaps && t.outstanding == s.outstanding &&
            t.hooks == [] && t.nextId == s.nextId
  {
    var s1 := s.(pressed := Track(s.pressed, e));
    var o := PartStep(s1.parts[0], e);
    var fired := if o.fired then [Call(s1.parts[0].id, e)] else [];
    var s2 := Replay(s1.(parts := s1.parts[0 := o.part], calls := s1.calls + fired), o.emit);
    assert RunParts(s2, e, 1) == (s2, false);
    assert RunParts(s1, e, 0) == (s2, o.claimed);
    assert s1.parts[0 := o.part] == [o.part];
    if !o.claimed {
      assert CallsOf([], e, true) == [] && CallsOf([], e, false) == [];
      assert Accepts([], e);
    }
  }

  /** The only rule is one suppressing hotkey, and no hook is registered. */
  predicate PartOnly(s: Session)
  {
    s.blocks == [] && s.remaps == [] && s.outstanding == map[] && s.hooks == [] && |s.parts| == 1
  }

  /** What one automaton lets through of a list of events: before each
      event what it emits, then the event unless it claims it. */
  function PartOutput(p: Part, events: seq<KeyEvent>): seq<KeyEvent>
    decreases |events|
  {
    if events == [] then []
    else
      var o := PartStep(p, events[0]);
      o.emit + (if o.claimed then [] else [events[0]]) + PartOutput(o.part, events[1..])
  }

  /** The state of one automaton after a list of events. */
  function PartAfter(p: Part, events: seq<KeyEvent>): Part
    decreases |events|
  {
    if events == [] then p else PartAfter(PartStep(p, events[0]).part, events[1..])
  }

  /** `PartOnly`, for one event. */
  lemma PartOnlyStep(s: Session, e: KeyEvent)
    requires PartOnly(s)
    ensures var o := PartStep(s.parts[0], e);
            var t := Step(s, e);
            PartOnly(t) && t.parts[0] == o.part &&
            t.output == s.output + o.emit + (if o.claimed then [] else [e])
  {
    OnePartStep(s, e);
  }

  /** A session whose only rule is one suppressing hotkey keeps it, in the
      state the events drive it to. */
  lemma {:induction false} InjectPartOnlyState(s: Session, events: seq<KeyEvent>)
    requires PartOnly(s)
    ensures PartOnly(Inject(s, events)) && Inject(s, events).parts[0] == PartAfter(s.parts[0], events)
    decreases |events|
  {
    if events != [] {
      PartOnlyStep(s, events[0]);
      InjectPartOnlyState(Step(s, events[0]), events[1..]);
    }
  }

  /** A session whose only rule is one suppressing hotkey: `do` emits
      exactly what the automaton lets through. */
  lemma {:induction false} InjectPartOnly(s: Session, events: seq<KeyEvent>)
    requires PartOnly(s)
    ensures Inject(s, events).output == s.output + PartOutput(s.parts[0], events)
    decreases |events|
  {
    if events != [] {
      var e := events[0];
      PartOnlyStep(s, e);
      var s1 := Step(s, e);
      assert Inject(s, events) == Inject(s1, events[1..]);
      InjectPartOnly(s1, events[1..]);
      var o := PartStep(s.parts[0], e);
      var head := o.emit + (if o.claimed then [] else [e]);
      var rest := PartOutput(o.part, events[1..]);
      assert s1.output == s.output + head && s1.parts[0] == o.part;
      PartOutputCons(s.parts[0], events);
      assert PartOutput(s.parts[0], events) == head + rest;
      ConcatAssoc(s.output, head, rest);
    }
  }

  lemma ConcatAssoc<T>(a: seq<T>, b: seq<T>, c: seq<T>)
    ensures (a + b) + c == a + (b + c)
  {
  }

  lemma PartOutputCons(p: Part, events: seq<KeyEvent>)
    requires events != []
    ensures var o := PartStep(p, events[0]);
            PartOutput(p, events) == o.emit + (if o.claimed then [] else [events[0]]) + PartOutput(o.part, events[1..])
  {
  }

  /** The Down of a remapped key emits the presses of its target and
      remembers the target for the matching Up. */
  lemma RemapDown(s: Session, e: KeyEvent)
    requires !Blocked(s.blocks, e.code) && e.kind == Down && RemapTarget(s.remaps, e.code).Some?
    ensures var t := Step(s, e);
            t.output == s.output + SendEvents(RemapTarget(s.remaps, e.code).value, true, false) &&
            t.outstanding == s.outstanding[e.code := RemapTarget(s.remaps, e.code).value] &&
            t.hooks == s.hooks && t.calls == s.calls && t.remaps == s.remaps && t.blocks == s.blocks && t.parts == s.parts
  {
  }

  /** The Up of a remapped key emits the releases of the target its Down
      pressed, even when the rule is gone by then. */
  lemma RemapUp(s: Session, e: KeyEvent)
    requires !Blocked(s.blocks, e.code) && e.kind == Up && e.code in s.outstanding
    ensures var t := Step(s, e);
            t.output == s.output + SendEvents(s.outstanding[e.code], false, true) &&
            t.outstanding == s.outstanding - {e.code} &&
            t.hooks == s.hooks && t.calls == s.calls && t.remaps == s.remaps && t.blocks == s.blocks && t.parts == s.parts
  {
  }

  /** The Up of a remapped key whose Down went unseen emits the releases of
      the current target. */
  lemma RemapUpUnseen(s: Session, e: KeyEvent)
    requires !Blocked(s.blocks, e.code) && e.kind == Up && e.code !in s.outstanding && RemapTarget(s.remaps, e.code).Some?
    ensures Step(s, e).output == s.output + SendEvents(RemapTarget(s.remaps, e.code).value, false, true)
    ensures Step(s, e).outstanding == s.outstanding
  {
  }

  // ---------------------------------------------------------------------
  // The pressed state.

  predicate AllOfKind(events: seq<KeyEvent>, kind: EventType)
  {
    forall i :: 0 <= i < |events| ==> events[i].kind == kind
  }

  /** Downs never release a key; Ups never press one. */
  lemma {:induction false} TrackAllMonotone(p: Pressed, events: seq<KeyEvent>)
    ensures AllOfKind(events, Down) ==> forall c :: c in p ==> c in TrackAll(p, events)
    ensures AllOfKind(events, Up) ==> forall c :: c in TrackAll(p, events) ==> c in p
    decreases |events|
  {
    if events != [] {
      TrackAllMonotone(Track(p, events[0]), events[1..]);
      assert AllOfKind(events, Down) ==> AllOfKind(events[1..], Down) && events[0].kind == Down;
      assert AllOfKind(events, Up) ==> AllOfKind(events[1..], Up) && events[0].kind == Up;
    }
  }

  /** Presses only press, releases only release. */
  lemma {:induction false} SendEventsKinds(chosen: seq<seq<int>>)
    ensures AllOfKind(SendEvents(chosen, true, false), Down)
    ensures AllOfKind(SendEvents(chosen, false, true), Up)
    decreases |chosen|
  {
    if chosen != [] {
      SendEventsKinds(chosen[1..]);
      var downs := Synth(Down, chosen[0]);
      var ups := Synth(Up, Reversed(chosen[0]));
      var d := SendEvents(chosen, true, false);
      var u := SendEvents(chosen, false, true);
      assert d == downs + [] + SendEvents(chosen[1..], true, false);
      assert u == [] + ups + SendEvents(chosen[1..], false, true);
      forall i | 0 <= i < |d| ensures d[i].kind == Down {
        if i >= |downs| { assert d[i] == SendEvents(chosen[1..], true, false)[i - |downs|]; }
      }
      forall i | 0 <= i < |u| ensures u[i].kind == Up {
        if i >= |ups| { assert u[i] == SendEvents(chosen[1..], false, true)[i - |ups|]; }
      }
    }
  }

  /** Without hotkey automata, a key is down right after its Down and up
      right after its Up, whatever blocks, remaps or hooks decide. */
  lemma PressedFollowsEvent(s: Session, e: KeyEvent)
    requires s.parts == []
    ensures e.kind == Down ==> e.code in Step(s, e).pressed
    ensures e.kind == Up ==> e.code !in Step(s, e).pressed
  {
    var s1 := s.(pressed := Track(s.pressed, e));
    var target := RemapTarget(s1.remaps, e.code);
    if !Blocked(s1.blocks, e.code) {
      if e.kind == Down && target.Some? {
        SendEventsKinds(target.value);
        TrackAllMonotone(s1.pressed, SendEvents(target.value, true, false));
      } else if e.kind == Up && e.code in s1.outstanding {
        SendEventsKinds(s1.outstanding[e.code]);
        TrackAllMonotone(s1.pressed, SendEvents(s1.outstanding[e.code], false, true));
      } else if e.kind == Up && target.Some? {
        SendEventsKinds(target.value);
        TrackAllMonotone(s1.pressed, SendEvents(target.value, false, true));
      } else {
        assert RunParts(s1, e, 0) == (s1, false);
      }
    }
  }

  // ---------------------------------------------------------------------
  // The hotkey automaton, one event at a time.

  /** An Up is never claimed: releases always pass. */
  lemma PartPassesUps(p: Part, e: KeyEvent)
    requires e.kind == Up
    ensures !PartStep(p, e).claimed && !PartStep(p, e).fired
    ensures IsModifierOf(p, e.code) ==> e.code !in PartStep(p, e).part.states
  {
  }

  /** The first Down of a modifier is held back and remembered. */
  lemma PartBuffersModifier(p: Part, e: KeyEvent)
    requires e.kind == Down && IsModifierOf(p, e.code) && e.code !in p.states
    requires !(e.code in p.trigger && AllHeld(p.modifiers, p.states.Keys))
    ensures var o := PartStep(p, e);
            o.claimed && !o.fired && o.emit == [] && o.part == p.(states := p.states[e.code := Buffered])
  {
  }

  /** The trigger with every modifier down fires the callback, swallows the
      trigger and every held-back modifier, and emits only what the
      callback injects. */
  lemma PartFires(p: Part, e: KeyEvent)
    requires e.kind == Down && e.code in p.trigger && AllHeld(p.modifiers, p.states.Keys)
    ensures var o := PartStep(p, e);
            o.claimed && o.fired && o.emit == p.inject &&
            o.part.states.Keys == p.states.Keys &&
            forall c :: c in o.part.states ==> o.part.states[c] != Buffered
  {
  }

  /** Any other key abandons the combination: the held-back modifier Downs
      are emitted in ascending code order, none stays held back, and the
      event itself passes. */
  lemma PartFlushes(p: Part, e: KeyEvent)
    requires !IsModifierOf(p, e.code)
    requires !(e.kind == Down && e.code in p.trigger && AllHeld(p.modifiers, p.states.Keys))
    ensures var o := PartStep(p, e);
            !o.claimed && !o.fired &&
            AllOfKind(o.emit, Down) &&
            (forall i :: 0 <= i < |o.emit| ==> o.emit[i].code in p.states && p.states[o.emit[i].code] == Buffered) &&
            (forall c :: c in p.states && p.states[c] == Buffered ==> exists i :: 0 <= i < |o.emit| && o.emit[i].code == c) &&
            (forall i, j :: 0 <= i < j < |o.emit| ==> o.emit[i].code < o.emit[j].code) &&
            o.part.states.Keys == p.states.Keys &&
            forall c :: c in o.part.states ==> o.part.states[c] != Buffered
  {
    var o := PartStep(p, e);
    assert o == Outcome(p.(states := Settle(p.states, Forwarded)), false, false, Synth(Down, BufferedCodes(p.states)));
    FlushedDowns(p.states);
    SettledForwarded(p.states);
  }

  /** The Downs given back for the held-back modifiers: one per held-back
      code, in ascending code order. */
  lemma FlushedDowns(states: map<int, ModState>)
    ensures var r := Synth(Down, BufferedCodes(states));
            AllOfKind(r, Down) &&
            (forall i :: 0 <= i < |r| ==> r[i].code in states && states[r[i].code] == Buffered) &&
            (forall c :: c in states && states[c] == Buffered ==> exists i :: 0 <= i < |r| && r[i].code == c) &&
            (forall i, j :: 0 <= i < j < |r| ==> r[i].code < r[j].code)
  {
    var codes := BufferedCodes(states);
    var r := Synth(Down, codes);
    forall i | 0 <= i < |r| ensures r[i].kind == Down && r[i].code == codes[i] {
    }
    forall c | c in states && states[c] == Buffered ensures exists i :: 0 <= i < |r| && r[i].code == c {
      var i :| 0 <= i < |codes| && codes[i] == c;
      assert r[i].code == c;
    }
  }

  /** Settling leaves nothing held back. */
  lemma SettledForwarded(states: map<int, ModState>)
    ensures Settle(states, Forwarded).Keys == states.Keys
    ensures forall c :: c in Settle(states, Forwarded) ==> Settle(states, Forwarded)[c] != Buffered
  {
  }

  /** Releasing a held-back modifier emits its Down first, so that the
      release that follows is balanced. */
  lemma PartReleasesBuffered(p: Part, e: KeyEvent)
    requires e.kind == Up && IsModifierOf(p, e.code) && e.code in p.states && p.states[e.code] == Buffered
    ensures PartStep(p, e).emit == [KeyEvent(Down, e.code, None)]
  {
  }
}
