/** The event pipeline as pure functions over a session: the pressed-state
    tracker, the block and remap rules, the suppressing single-step hotkey
    automaton, the hook registry with its verdict rule, the recorder, and the
    synthetic output of `send`, `write`, `play` and the state restorers. */
module Listener {
  import opened Events
  import opened Keys
  import opened Extractors

  // ---------------------------------------------------------------------
  // Pressed state: the most recent Down of every key that is down.

  type Pressed = map<int, KeyEvent>

  /** A Down records the event under its code, an Up forgets the code. */
  function Track(p: Pressed, e: KeyEvent): (r: Pressed)
    ensures e.code in r <==> e.kind == Down
    ensures e.code in r ==> r[e.code] == e
    ensures forall c :: c != e.code ==> (c in r <==> c in p)
    ensures forall c :: c != e.code && c in p ==> r[c] == p[c]
  {
    if e.kind == Down then p[e.code := e] else p - {e.code}
  }

  function TrackAll(p: Pressed, events: seq<KeyEvent>): Pressed
    decreases |events|
  {
    if events == [] then p else TrackAll(Track(p, events[0]), events[1..])
  }

  lemma {:induction false} TrackAllConcat(p: Pressed, a: seq<KeyEvent>, b: seq<KeyEvent>)
    ensures TrackAll(p, a + b) == TrackAll(TrackAll(p, a), b)
    decreases |a|
  {
    if a != [] {
      assert (a + b)[0] == a[0] && (a + b)[1..] == a[1..] + b;
      TrackAllConcat(Track(p, a[0]), a[1..], b);
    } else {
      assert a + b == b;
    }
  }

  /** Releasing a list of codes leaves exactly the other keys down. */
  lemma {:induction false} TrackAllUps(p: Pressed, codes: seq<int>)
    ensures TrackAll(p, Synth(Up, codes)).Keys == p.Keys - set c | c in codes
    decreases |codes|
  {
    if codes != [] {
      var e := KeyEvent(Up, codes[0], None);
      assert Synth(Up, codes)[0] == e;
      assert Synth(Up, codes)[1..] == Synth(Up, codes[1..]);
      TrackAllUps(Track(p, e), codes[1..]);
      assert codes == [codes[0]] + codes[1..];
    }
  }

  /** Pressing a list of codes adds exactly those keys. */
  lemma {:induction false} TrackAllDowns(p: Pressed, codes: seq<int>)
    ensures TrackAll(p, Synth(Down, codes)).Keys == p.Keys + set c | c in codes
    decreases |codes|
  {
    if codes != [] {
      var e := KeyEvent(Down, codes[0], None);
      assert Synth(Down, codes)[0] == e;
      assert Synth(Down, codes)[1..] == Synth(Down, codes[1..]);
      TrackAllDowns(Track(p, e), codes[1..]);
      assert codes == [codes[0]] + codes[1..];
    }
  }

  // ---------------------------------------------------------------------
  // Sets of scan codes in ascending order.

  function MinOf(s: set<int>): (m: int)
    requires s != {}
    ensures m in s && forall c :: c in s ==> m <= c
  {
    MinExists(s);
    var m :| m in s && forall c :: c in s ==> m <= c;
    m
  }

  lemma {:induction false} MinExists(s: set<int>)
    requires s != {}
    ensures exists m :: m in s && forall c :: c in s ==> m <= c
    decreases |s|
  {
    NonEmpty(s);
    var x :| x in s;
    if s != {x} {
      MinExists(s - {x});
      var m :| m in s - {x} && forall c :: c in s - {x} ==> m <= c;
      var least := if x < m then x else m;
      forall c | c in s ensures least <= c {
        if c != x {
          assert c in s - {x};
        }
      }
      assert least in s;
    } else {
      assert forall c :: c in s ==> x <= c;
    }
  }

  lemma NonEmpty(s: set<int>)
    requires s != {}
    ensures exists x :: x in s
  {
    if forall x :: x !in s {
      assert false;
    }
  }

  /** `sorted(s)`. */
  function Sorted(s: set<int>): (r: seq<int>)
    ensures forall i, j :: 0 <= i < j < |r| ==> r[i] < r[j]
    ensures forall c :: c in r <==> c in s
    ensures |r| == |s|
    decreases |s|
  {
    if s == {} then []
    else
      var m := MinOf(s);
      [m] + Sorted(s - {m})
  }

  /** The head of an ascending list is its least element. */
  lemma HeadIsLeast(xs: seq<int>)
    requires xs != []
    requires forall i, j :: 0 <= i < j < |xs| ==> xs[i] < xs[j]
    ensures forall c :: c in xs ==> xs[0] <= c
  {
    forall c | c in xs ensures xs[0] <= c {
      var k :| 0 <= k < |xs| && xs[k] == c;
      assert k == 0 || xs[0] < xs[k];
    }
  }

  /** Two ascending lists of the same codes are equal. */
  lemma {:induction false} AscendingUnique(xs: seq<int>, ys: seq<int>)
    requires forall i, j :: 0 <= i < j < |xs| ==> xs[i] < xs[j]
    requires forall i, j :: 0 <= i < j < |ys| ==> ys[i] < ys[j]
    requires forall c :: c in xs <==> c in ys
    ensures xs == ys
    decreases |xs|
  {
    if xs != [] && ys != [] {
      var x, y := xs[0], ys[0];
      assert x in ys && y in xs;
      HeadIsLeast(xs);
      HeadIsLeast(ys);
      forall c ensures c in xs[1..] <==> c in ys[1..] {
        if c in xs[1..] {
          var k :| 1 <= k < |xs| && xs[k] == c;
          assert c in ys && c != y;
          var j :| 0 <= j < |ys| && ys[j] == c;
          assert j != 0;
        }
        if c in ys[1..] {
          var k :| 1 <= k < |ys| && ys[k] == c;
          assert c in xs && c != x;
          var j :| 0 <= j < |xs| && xs[j] == c;
          assert j != 0;
        }
      }
      AscendingUnique(xs[1..], ys[1..]);
      assert xs == [x] + xs[1..] && ys == [y] + ys[1..];
    } else if xs != [] {
      HeadInInts(xs);
      assert false;
    } else if ys != [] {
      HeadInInts(ys);
      assert false;
    }
  }

  lemma HeadInInts(xs: seq<int>)
    requires xs != []
    ensures xs[0] in xs
  {
  }

  // ---------------------------------------------------------------------
  // Sessions.

  /** A block rule: the key as given, and the codes it resolved to. */
  datatype Block = Block(key: Key, codes: seq<int>)

  /** A remap rule: the source key, its codes, and the target hotkey as the
      scan code chosen for each of its keys, step by step. */
  datatype Remap = Remap(key: Key, codes: seq<int>, target: seq<seq<int>>)

  /** Which events a hook is offered: all of them, or those of one key. */
  datatype Scope = AllKeys | OnKey(key: Key, codes: seq<int>)

  /** `on_press` and `on_release` wrap their callback so that events of the
      other kind are allowed without calling it. */
  datatype Filter = AnyEvent | DownsOnly | UpsOnly

  /** A registered callback: `verdict` is what it returns, read as a boolean. */
  datatype Hook = Hook(id: nat, scope: Scope, suppress: bool, filter: Filter, verdict: KeyEvent -> bool)

  /** The state of one modifier code in a hotkey automaton; a code with no
      state is idle. */
  datatype ModState = Buffered | Forwarded | Consumed

  /** A suppressing single-step hotkey: the codes of each modifier key, the
      codes of the trigger key, and what its callback injects. */
  datatype Part = Part(id: nat, modifiers: seq<seq<int>>, trigger: seq<int>, inject: seq<KeyEvent>, states: map<int, ModState>)

  /** One invocation of a callback: the hook or hotkey it belongs to, and the event. */
  datatype Call = Call(id: nat, event: KeyEvent)

  /** A recording in progress: the events it captured, and whether the hook
      that captures them is still installed (`unhook_all` removes it). */
  datatype Recording = Recording(events: seq<KeyEvent>, hooked: bool)

  datatype Session = Session(
    pressed: Pressed,
    blocks: seq<Block>,
    remaps: seq<Remap>,
    outstanding: map<int, seq<seq<int>>>,
    parts: seq<Part>,
    hooks: seq<Hook>,
    recording: Option<Recording>,
    nextId: nat,
    calls: seq<Call>,
    output: seq<KeyEvent>)

  /** The state after the test suite's `tearDown`. */
  function Fresh(): (s: Session)
    ensures s.pressed == map[] && s.output == [] && s.recording.None?
  {
    Session(map[], [], [], map[], [], [], None, 0, [], [])
  }

  /** Events that are delivered as they are: they change the pressed state
      and reach the output, without being offered to rules, hotkeys or hooks. */
  function Replay(s: Session, events: seq<KeyEvent>): Session
  {
    s.(pressed := TrackAll(s.pressed, events), output := s.output + events)
  }

  /** The recording after its hook saw `e`: the event is appended while the
      hook is installed, and nothing changes once it is removed. */
  function Record(recording: Option<Recording>, e: KeyEvent): (r: Option<Recording>)
    ensures r.Some? <==> recording.Some?
    ensures r.Some? ==> r.value.hooked == recording.value.hooked
    ensures r.Some? ==> r.value.events == recording.value.events + (if recording.value.hooked then [e] else [])
  {
    match recording
    case Some(rec) => if rec.hooked then Some(rec.(events := rec.events + [e])) else recording
    case None => None
  }

  /** The recording once its hook is removed: it keeps what it captured. */
  function Unhooked(recording: Option<Recording>): Option<Recording>
  {
    match recording
    case Some(rec) => Some(rec.(hooked := false))
    case None => None
  }

  // ---------------------------------------------------------------------
  // Synthetic key presses.

  function Reversed(xs: seq<int>): (r: seq<int>)
    ensures |r| == |xs| && forall i :: 0 <= i < |xs| ==> r[i] == xs[|xs| - 1 - i]
  {
    seq(|xs|, i requires 0 <= i < |xs| => xs[|xs| - 1 - i])
  }

  /** The scan code `send` uses for each key of each step: its first one. */
  function Chosen(steps: Steps): (r: Result<seq<seq<int>>>)
    ensures r.Ok? <==> forall i, j :: 0 <= i < |steps| && 0 <= j < |steps[i]| ==> steps[i][j] != []
    ensures r.Ok? ==> |r.value| == |steps|
    ensures r.Ok? ==> forall i :: 0 <= i < |steps| ==> |r.value[i]| == |steps[i]|
    ensures r.Ok? ==> forall i, j :: 0 <= i < |steps| && 0 <= j < |steps[i]| ==> r.value[i][j] == steps[i][j][0]
    ensures r.Err? ==> r.error == NoScanCode
  {
    if forall i, j :: 0 <= i < |steps| && 0 <= j < |steps[i]| ==> steps[i][j] != [] then
      Ok(seq(|steps|, i requires 0 <= i < |steps| =>
        seq(|steps[i]|, j requires 0 <= j < |steps[i]| => steps[i][j][0])))
    else Err(NoScanCode)
  }

  /** The events `send` issues: step by step, the presses in order and then
      the releases in reverse order. */
  function SendEvents(chosen: seq<seq<int>>, doPress: bool, doRelease: bool): seq<KeyEvent>
    decreases |chosen|
  {
    if chosen == [] then []
    else
      (if doPress then Synth(Down, chosen[0]) else []) +
      (if doRelease then Synth(Up, Reversed(chosen[0])) else []) +
      SendEvents(chosen[1..], doPress, doRelease)
  }

  /** A one-step send, written out. */
  lemma SendOneStep(step: seq<int>, doPress: bool, doRelease: bool)
    ensures SendEvents([step], doPress, doRelease) ==
            (if doPress then Synth(Down, step) else []) + (if doRelease then Synth(Up, Reversed(step)) else [])
  {
    assert [step][1..] == [];
  }

  /** A step pressed and released leaves none of its keys down and the others
      as they were. */
  lemma PressReleaseStep(p: Pressed, step: seq<int>)
    ensures TrackAll(p, SendEvents([step], true, true)).Keys == p.Keys - set c | c in step
  {
    SendOneStep(step, true, true);
    TrackAllConcat(p, Synth(Down, step), Synth(Up, Reversed(step)));
    TrackAllDowns(p, step);
    TrackAllUps(TrackAll(p, Synth(Down, step)), Reversed(step));
    assert (set c | c in Reversed(step)) == set c | c in step by {
      forall c | c in step ensures c in Reversed(step) {
        var i :| 0 <= i < |step| && step[i] == c;
        assert Reversed(step)[|step| - 1 - i] == c;
      }
    }
  }

  // ---------------------------------------------------------------------
  // The transform stage.

  predicate Blocked(blocks: seq<Block>, code: int)
  {
    exists i :: 0 <= i < |blocks| && code in blocks[i].codes
  }

  /** The target of the first remap rule whose source covers `code`. */
  function RemapTarget(remaps: seq<Remap>, code: int): (r: Option<seq<seq<int>>>)
    ensures r.Some? <==> exists i :: 0 <= i < |remaps| && code in remaps[i].codes
    ensures r.Some? ==> exists i :: 0 <= i < |remaps| && code in remaps[i].codes && r.value == remaps[i].target &&
                                    forall j :: 0 <= j < i ==> code !in remaps[j].codes
  {
    if remaps == [] then None
    else if code in remaps[0].codes then Some(remaps[0].target)
    else
      var r := RemapTarget(remaps[1..], code);
      if r.Some? then
        var i :| 0 <= i < |remaps[1..]| && code in remaps[1..][i].codes && r.value == remaps[1..][i].target &&
                 forall j :: 0 <= j < i ==> code !in remaps[1..][j].codes;
        assert forall j :: 0 <= j < i + 1 ==> code !in remaps[j].codes by {
          forall j | 0 <= j < i + 1 ensures code !in remaps[j].codes {
            if j > 0 { assert remaps[j] == remaps[1..][j - 1]; }
          }
        }
        r
      else
        assert forall i :: 1 <= i < |remaps| ==> remaps[i] == remaps[1..][i - 1];
        r
  }

  /** A rule added last decides a code no earlier rule covers. */
  lemma {:induction false} RemapTargetAppend(remaps: seq<Remap>, m: Remap, code: int)
    requires RemapTarget(remaps, code).None? && code in m.codes
    ensures RemapTarget(remaps + [m], code) == Some(m.target)
    decreases |remaps|
  {
    if remaps != [] {
      assert (remaps + [m])[0] == remaps[0] && (remaps + [m])[1..] == remaps[1..] + [m];
      RemapTargetAppend(remaps[1..], m, code);
    } else {
      assert remaps + [m] == [m];
    }
  }

  // ---------------------------------------------------------------------
  // The suppressing hotkey automaton.

  predicate IsModifierOf(p: Part, code: int)
  {
    exists k :: 0 <= k < |p.modifiers| && code in p.modifiers[k]
  }

  /** Every key of a step has one of its codes among `down`. */
  predicate AllHeld(keys: seq<seq<int>>, down: set<int>)
  {
    forall k :: 0 <= k < |keys| ==> exists c :: c in keys[k] && c in down
  }

  function BufferedCodes(states: map<int, ModState>): (r: seq<int>)
    ensures forall c :: c in r <==> c in states && states[c] == Buffered
    ensures forall i, j :: 0 <= i < j < |r| ==> r[i] < r[j]
  {
    Sorted(set c | c in states && states[c] == Buffered)
  }

  /** Every buffered code becomes `into`; the other codes keep their state. */
  function Settle(states: map<int, ModState>, into: ModState): (r: map<int, ModState>)
    ensures r.Keys == states.Keys
    ensures forall c :: c in r ==> r[c] == if states[c] == Buffered then into else states[c]
  {
    map c | c in states :: if states[c] == Buffered then into else states[c]
  }

  /** What one automaton does with one event: its new state, whether it
      claims the event, whether its callback fires, and what it injects. */
  datatype Outcome = Outcome(part: Part, claimed: bool, fired: bool, emit: seq<KeyEvent>)

  /** The automaton follows the modifier codes it has seen go down and not
      yet up (its `states`), whatever else the pressed state records. */
  function PartStep(p: Part, e: KeyEvent): Outcome
  {
    if e.kind == Down && e.code in p.trigger && AllHeld(p.modifiers, p.states.Keys) then
      Outcome(p.(states := Settle(p.states, Consumed)), true, true, p.inject)
    else if IsModifierOf(p, e.code) then
      if e.kind == Down then
        if e.code !in p.states then Outcome(p.(states := p.states[e.code := Buffered]), true, false, [])
        else Outcome(p, p.states[e.code] != Forwarded, false, [])
      else
        var flush := if e.code in p.states && p.states[e.code] == Buffered then [KeyEvent(Down, e.code, None)] else [];
        Outcome(p.(states := p.states - {e.code}), false, false, flush)
    else
      Outcome(p.(states := Settle(p.states, Forwarded)), false, false, Synth(Down, BufferedCodes(p.states)))
  }

  /** Every automaton sees the event in registration order; the event is
      claimed when one of them claims it. */
  function RunParts(s: Session, e: KeyEvent, i: nat): (r: (Session, bool))
    requires i <= |s.parts|
    ensures |r.0.parts| == |s.parts|
    ensures r.0.hooks == s.hooks && r.0.recording == s.recording
    decreases |s.parts| - i
  {
    if i == |s.parts| then (s, false)
    else
      var o := PartStep(s.parts[i], e);
      var fired := if o.fired then [Call(s.parts[i].id, e)] else [];
      var s1 := Replay(s.(parts := s.parts[i := o.part], calls := s.calls + fired), o.emit);
      var r1 := RunParts(s1, e, i + 1);
      (r1.0, o.claimed || r1.1)
  }

  // ---------------------------------------------------------------------
  // Hooks and the verdict rule.

  predicate Applies(h: Hook, e: KeyEvent)
  {
    match h.scope
    case AllKeys => true
    case OnKey(_, codes) => e.code in codes
  }

  /** Whether the callback itself is called (rather than its filter answering). */
  predicate Wants(h: Hook, e: KeyEvent)
  {
    match h.filter
    case AnyEvent => true
    case DownsOnly => e.kind == Down
    case UpsOnly => e.kind == Up
  }

  predicate Allows(h: Hook, e: KeyEvent)
  {
    !Wants(h, e) || h.verdict(e)
  }

  /** Some suppressing hook is offered the event. */
  predicate Guarded(hooks: seq<Hook>, e: KeyEvent)
  {
    exists i :: 0 <= i < |hooks| && hooks[i].suppress && Applies(hooks[i], e)
  }

  /** Some suppressing hook offered the event allows it. */
  predicate Allowed(hooks: seq<Hook>, e: KeyEvent)
  {
    exists i :: 0 <= i < |hooks| && hooks[i].suppress && Applies(hooks[i], e) && Allows(hooks[i], e)
  }

  /** An event is forwarded unless a suppressing hook is offered it and none
      of those allows it. */
  predicate Accepts(hooks: seq<Hook>, e: KeyEvent)
  {
    !Guarded(hooks, e) || Allowed(hooks, e)
  }

  /** The callbacks the event reaches among the suppressing (or the
      non-suppressing) hooks, in registration order. */
  function CallsOf(hooks: seq<Hook>, e: KeyEvent, suppressing: bool): (r: seq<Call>)
    ensures |r| <= |hooks|
    ensures forall k :: 0 <= k < |r| ==> r[k].event == e
    ensures forall k :: 0 <= k < |r| ==>
              exists i :: (0 <= i < |hooks| && hooks[i].id == r[k].id &&
                           hooks[i].suppress == suppressing && Applies(hooks[i], e) && Wants(hooks[i], e))
  {
    if hooks == [] then []
    else
      var last := hooks[|hooks| - 1];
      var init := CallsOf(hooks[..|hooks| - 1], e, suppressing);
      assert forall i :: 0 <= i < |hooks| - 1 ==> hooks[..|hooks| - 1][i] == hooks[i];
      init + (if last.suppress == suppressing && Applies(last, e) && Wants(last, e) then [Call(last.id, e)] else [])
  }

  /** The hook stage: suppressing hooks decide; on acceptance the
      non-suppressing hooks and the recording see the event. */
  function RunHooks(s: Session, e: KeyEvent): (r: (Session, bool))
  {
    var s1 := s.(calls := s.calls + CallsOf(s.hooks, e, true));
    if Accepts(s.hooks, e) then
      (s1.(calls := s1.calls + CallsOf(s.hooks, e, false), recording := Record(s.recording, e)), true)
    else (s1, false)
  }

  // ---------------------------------------------------------------------
  // Dispatch.

  /** `direct_callback`: the new session and whether the event is forwarded. */
  function Dispatch(s: Session, e: KeyEvent): (Session, bool)
  {
    var s1 := s.(pressed := Track(s.pressed, e));
    var target := RemapTarget(s1.remaps, e.code);
    if Blocked(s1.blocks, e.code) then (s1, false)
    else if e.kind == Down && target.Some? then
      (Replay(s1.(outstanding := s1.outstanding[e.code := target.value]), SendEvents(target.value, true, false)), false)
    else if e.kind == Up && e.code in s1.outstanding then
      (Replay(s1.(outstanding := s1.outstanding - {e.code}), SendEvents(s1.outstanding[e.code], false, true)), false)
    else if e.kind == Up && target.Some? then
      (Replay(s1, SendEvents(target.value, false, true)), false)
    else
      var r := RunParts(s1, e, 0);
      if r.1 then (r.0, false) else RunHooks(r.0, e)
  }

  /** `send_instant_event`: dispatch, and emit the event if it is forwarded. */
  function Step(s: Session, e: KeyEvent): Session
  {
    var r := Dispatch(s, e);
    if r.1 then r.0.(output := r.0.output + [e]) else r.0
  }

  function Inject(s: Session, events: seq<KeyEvent>): Session
    decreases |events|
  {
    if events == [] then s else Inject(Step(s, events[0]), events[1..])
  }

  lemma {:induction false} InjectConcat(s: Session, a: seq<KeyEvent>, b: seq<KeyEvent>)
    ensures Inject(s, a + b) == Inject(Inject(s, a), b)
    decreases |a|
  {
    if a != [] {
      assert (a + b)[0] == a[0] && (a + b)[1..] == a[1..] + b;
      InjectConcat(Step(s, a[0]), a[1..], b);
    } else {
      assert a + b == b;
    }
  }

  /** The harness's `do`: pump the events, return what was emitted, clear it. */
  function Do(s: Session, events: seq<KeyEvent>): (r: (seq<KeyEvent>, Session))
    ensures r.0 == Inject(s, events).output
    ensures r.1.output == []
  {
    var t := Inject(s, events);
    (t.output, t.(output := []))
  }
}
