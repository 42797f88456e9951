/** The test suite's expectations for `block_key`, `remap_key` and their
    removal. Expected lists are written with the events of the test's
    shortcuts (`d_a` is `KeyEvent(Down, 1, Some("a"))`); events the library
    emits in place of a remapped key carry no name and are compared with
    `Same`. */
module RuleCases {
  import opened Events
  import opened Keys
  import opened KeyCases
  import opened Listener
  import opened Client
  import opened DispatchFacts

  // ---------------------------------------------------------------------
  // Blocks.

  /** No block covers anything: every event passes. */
  lemma {:induction false} UnblockedNone(events: seq<KeyEvent>)
    ensures Unblocked([], events) == events
    decreases |events|
  {
    if events != [] {
      UnblockedNone(events[1..]);
      assert [events[0]] + events[1..] == events;
    }
  }

  /** One block covers exactly its own codes. */
  lemma OneBlock(b: Block, code: int)
    ensures Blocked([b], code) <==> code in b.codes
  {
    if code in b.codes {
      assert [b][0].codes == b.codes;
    }
  }

  /** The harness's `do` on a session whose only rules are blocks. */
  lemma DoBlocksOnly(s: Session, events: seq<KeyEvent>)
    requires BlocksOnly(s) && s.output == []
    ensures var (o, t) := Do(s, events);
            o == Unblocked(s.blocks, events) && BlocksOnly(t) && t.blocks == s.blocks && t.output == []
  {
    InjectBlocksOnly(s, events);
    InjectBlocksOnlyState(s, events);
  }

  /** Two events against one block. */
  lemma UnblockedTwo(b: Block, e1: KeyEvent, e2: KeyEvent)
    ensures Unblocked([b], [e1, e2]) ==
            (if e1.code in b.codes then [] else [e1]) + (if e2.code in b.codes then [] else [e2])
  {
    OneBlock(b, e1.code);
    OneBlock(b, e2.code);
    assert [e1, e2][1..] == [e2];
    assert [e2][1..] == [];
  }

  /** One event against one block. */
  lemma UnblockedOne(b: Block, e: KeyEvent)
    ensures Unblocked([b], [e]) == if e.code in b.codes then [] else [e]
  {
    OneBlock(b, e.code);
    assert [e][1..] == [];
  }

  /** `block_key('a')` on a fresh session: one block on code 1. */
  lemma BlockLetterA(a: string)
    requires a == "a"
    ensures BlockKey(Fresh(), Name(a)) == Ok(Fresh().(blocks := [Block(Name(a), [1])]))
  {
    LetterA(a);
    assert Fresh().blocks + [Block(Name(a), [1])] == [Block(Name(a), [1])];
  }

  /** `block_key('A')` on a fresh session: one block on codes 1 and -1. */
  lemma BlockUpperA(upper: string)
    requires upper == "A"
    ensures BlockKey(Fresh(), Name(upper)) == Ok(Fresh().(blocks := [Block(Name(upper), [1, -1])]))
  {
    UpperA(upper);
    assert Fresh().blocks + [Block(Name(upper), [1, -1])] == [Block(Name(upper), [1, -1])];
  }

  /** `test_block_key`, while the block holds: `d_a` is dropped of
      `d_a + d_b`, and the Down of code -1, another `A`, passes. */
  lemma BlockKeyScenario(a: string, b: string, upper: string)
    requires a == "a" && b == "b" && upper == "A"
    ensures BlockKey(Fresh(), Name(a)).Ok?
    ensures var da, db, dA := KeyEvent(Down, 1, Some(a)), KeyEvent(Down, 2, Some(b)), KeyEvent(Down, -1, Some(upper));
            var s1 := BlockKey(Fresh(), Name(a)).value;
            var (o1, t1) := Do(s1, [da, db]);
            var (o2, t2) := Do(t1, [dA]);
            o1 == [db] && o2 == [dA] && BlocksOnly(t2) && t2.blocks == [Block(Name(a), [1])] && t2.output == []
  {
    var da, db, dA := KeyEvent(Down, 1, Some(a)), KeyEvent(Down, 2, Some(b)), KeyEvent(Down, -1, Some(upper));
    BlockLetterA(a);
    var s1 := BlockKey(Fresh(), Name(a)).value;
    DoBlocksOnly(s1, [da, db]);
    UnblockedTwo(s1.blocks[0], da, db);
    var t1 := Do(s1, [da, db]).1;
    DoBlocksOnly(t1, [dA]);
    UnblockedOne(t1.blocks[0], dA);
  }

  /** `test_block_key`, after `unblock_key('a')`: `d_a + d_b` pass again. */
  lemma UnblockKeyScenario(a: string, b: string, t2: Session)
    requires a == "a" && b == "b"
    requires BlocksOnly(t2) && t2.blocks == [Block(Name(a), [1])] && t2.output == []
    ensures UnblockKey(t2, Name(a)).Ok?
    ensures var da, db := KeyEvent(Down, 1, Some(a)), KeyEvent(Down, 2, Some(b));
            Do(UnblockKey(t2, Name(a)).value, [da, db]).0 == [da, db]
  {
    var da, db := KeyEvent(Down, 1, Some(a)), KeyEvent(Down, 2, Some(b));
    assert FirstWhere(t2.blocks, (x: Block) => x.key == Name(a)) == 0;
    var u := UnblockKey(t2, Name(a)).value;
    assert u.blocks == [];
    DoBlocksOnly(u, [da, db]);
    UnblockedNone([da, db]);
  }

  /** `test_block_key_ambiguous`: `block_key('A')` blocks both of its codes,
      so `d_a` and the Down of code -1 are both dropped. */
  lemma BlockKeyAmbiguous(a: string, b: string, upper: string)
    requires a == "a" && b == "b" && upper == "A"
    ensures BlockKey(Fresh(), Name(upper)).Ok?
    ensures var da, db, dA := KeyEvent(Down, 1, Some(a)), KeyEvent(Down, 2, Some(b)), KeyEvent(Down, -1, Some(upper));
            var s1 := BlockKey(Fresh(), Name(upper)).value;
            var (o1, t1) := Do(s1, [da, db]);
            o1 == [db] && Do(t1, [dA]).0 == []
  {
    var da, db, dA := KeyEvent(Down, 1, Some(a)), KeyEvent(Down, 2, Some(b)), KeyEvent(Down, -1, Some(upper));
    BlockUpperA(upper);
    var s1 := BlockKey(Fresh(), Name(upper)).value;
    DoBlocksOnly(s1, [da, db]);
    UnblockedTwo(s1.blocks[0], da, db);
    var t1 := Do(s1, [da, db]).1;
    DoBlocksOnly(t1, [dA]);
    UnblockedOne(t1.blocks[0], dA);
  }

  // ---------------------------------------------------------------------
  // Remaps.

  /** Blocks, hotkeys and hooks are absent; only remap rules decide. */
  predicate RemapsOnly(s: Session)
  {
    s.blocks == [] && s.parts == [] && s.hooks == []
  }

  /** Three events, one step at a time. */
  lemma InjectThree(s: Session, e1: KeyEvent, e2: KeyEvent, e3: KeyEvent)
    ensures Inject(s, [e1, e2, e3]) == Step(Step(Step(s, e1), e2), e3)
  {
    assert [e1, e2, e3][1..] == [e2, e3];
    InjectTwo(Step(s, e1), e2, e3);
  }

  /** Two events, one step at a time. */
  lemma InjectTwo(s: Session, e1: KeyEvent, e2: KeyEvent)
    ensures Inject(s, [e1, e2]) == Step(Step(s, e1), e2)
  {
    assert [e1, e2][1..] == [e2] && [e2][1..] == [];
    assert Inject(Step(s, e1), [e2]) == Inject(Step(Step(s, e1), e2), []);
  }

  /** The Down of a remapped key on a remap-only session. */
  lemma RemapsOnlyDown(s: Session, e: KeyEvent, target: seq<seq<int>>)
    requires RemapsOnly(s) && e.kind == Down && RemapTarget(s.remaps, e.code) == Some(target)
    ensures var t := Step(s, e);
            RemapsOnly(t) && t.remaps == s.remaps && t.outstanding == s.outstanding[e.code := target] &&
            t.output == s.output + SendEvents(target, true, false)
  {
    RemapDown(s, e);
  }

  /** The Up of a held remapped key on a remap-only session. */
  lemma RemapsOnlyUp(s: Session, e: KeyEvent)
    requires RemapsOnly(s) && e.kind == Up && e.code in s.outstanding
    ensures var t := Step(s, e);
            RemapsOnly(t) && t.remaps == s.remaps && t.outstanding == s.outstanding - {e.code} &&
            t.output == s.output + SendEvents(s.outstanding[e.code], false, true)
  {
    RemapUp(s, e);
  }

  /** An event no remap covers, on a remap-only session. */
  lemma RemapsOnlyPlain(s: Session, e: KeyEvent)
    requires RemapsOnly(s) && RemapTarget(s.remaps, e.code).None? && (e.kind == Up ==> e.code !in s.outstanding)
    ensures var t := Step(s, e);
            RemapsOnly(t) && t.remaps == s.remaps && t.outstanding == s.outstanding && t.output == s.output + [e]
  {
    PlainStep(s, e);
  }

  /** The codes `send` chooses for `b` and for `shift+b`. */
  lemma ChosenTargets()
    ensures Chosen([[[2]]]) == Ok([[2]])
    ensures Chosen([[[5, 6], [2]]]) == Ok([[5, 2]])
  {
    ChosenFirst([2], [2], 2, 2);
    ChosenFirst([5, 6], [2], 5, 2);
  }

  /** A single step of one or two keys: the first code of each. */
  lemma ChosenFirst(k1: seq<int>, k2: seq<int>, c1: int, c2: int)
    requires k1 != [] && k2 != [] && k1[0] == c1 && k2[0] == c2
    ensures k1 == k2 ==> Chosen([[k1]]) == Ok([[c1]])
    ensures k1 != k2 ==> Chosen([[k1, k2]]) == Ok([[c1, c2]])
  {
    if k1 == k2 {
      var steps: Steps := [[k1]];
      assert |steps| == 1 && |steps[0]| == 1;
      var r := Chosen(steps).value;
      assert r[0][0] == c1;
      assert r[0] == [c1];
      assert r == [[c1]];
    } else {
      var steps: Steps := [[k1, k2]];
      assert |steps| == 1 && |steps[0]| == 2;
      var r := Chosen(steps).value;
      assert r[0][0] == c1 && r[0][1] == c2;
      assert r[0] == [c1, c2];
      assert r == [[c1, c2]];
    }
  }

  /** One remap rule on a fresh session, from `src` with codes `codes` to a
      single-step target. */
  lemma RemapFresh(src: Key, dst: Key, codes: seq<int>, steps: Steps, target: seq<seq<int>>)
    requires ScanCodes(src) == Ok(codes) && ParseHotkey(dst) == Ok(steps) && Chosen(steps) == Ok(target)
    ensures RemapKey(Fresh(), src, dst) == Ok(Fresh().(remaps := [Remap(src, codes, target)]))
  {
    assert Fresh().remaps + [Remap(src, codes, target)] == [Remap(src, codes, target)];
  }

  /** The single rule's target covers its codes and nothing else. */
  lemma OneRemap(m: Remap, code: int)
    ensures RemapTarget([m], code) == if code in m.codes then Some(m.target) else None
  {
    assert [m][1..] == [];
  }

  /** `remap_key(src, ...)` then the Down, another key's Down and Up, and
      the Up of `src`: the target is pressed in place of the source and
      released in place of its release, around the other key's events. */
  lemma RemapAround(s: Session, d: KeyEvent, x: KeyEvent, u: KeyEvent, m: Remap)
    requires RemapsOnly(s) && s.remaps == [m] && s.outstanding == map[] && s.output == []
    requires d.kind == Down && u.kind == Up && d.code == u.code && d.code in m.codes && x.code !in m.codes && x.code != d.code
    ensures var (o, t) := Do(s, [d, x, u]);
            o == SendEvents(m.target, true, false) + [x] + SendEvents(m.target, false, true) &&
            RemapsOnly(t) && t.remaps == [m] && t.outstanding == map[] && t.output == []
  {
    OneRemap(m, d.code);
    OneRemap(m, x.code);
    InjectThree(s, d, x, u);
    RemapsOnlyDown(s, d, m.target);
    var s1 := Step(s, d);
    RemapsOnlyPlain(s1, x);
    var s2 := Step(s1, x);
    RemapsOnlyUp(s2, u);
    assert s.outstanding[d.code := m.target] - {d.code} == map[];
  }

  /** A remap-only session with no rule and no key held is a blocks-only
      session with no block: everything passes. */
  lemma DoNoRules(s: Session, events: seq<KeyEvent>)
    requires RemapsOnly(s) && s.remaps == [] && s.outstanding == map[] && s.output == []
    ensures Do(s, events).0 == events
  {
    DoBlocksOnly(s, events);
    UnblockedNone(events);
  }

  /** `remap_key('a', 'b')` on a fresh session. */
  lemma RemapAToB(a: string, b: string)
    requires a == "a" && b == "b"
    ensures RemapKey(Fresh(), Name(a), Name(b)) == Ok(Fresh().(remaps := [Remap(Name(a), [1], [[2]])]))
  {
    LetterA(a);
    ParseLetterB(b);
    ChosenTargets();
    RemapFresh(Name(a), Name(b), [1], [[[2]]], [[2]]);
  }

  /** `test_remap_key_simple`, on the session `remap_key('a', 'b')`
      leaves (`RemapAToB`): `d_a + d_c + u_a` comes out as `d_b + d_c +
      u_b`; after `unremap_key('a')` it comes out as it went in. */
  lemma RemapKeySimple(a: string, b: string, c: string, s1: Session)
    requires a == "a" && b == "b" && c == "c"
    requires RemapsOnly(s1) && s1.remaps == [Remap(Name(a), [1], [[2]])] && s1.outstanding == map[] && s1.output == []
    ensures var da, dc, ua := KeyEvent(Down, 1, Some(a)), KeyEvent(Down, 3, Some(c)), KeyEvent(Up, 1, Some(a));
            var (o1, t1) := Do(s1, [da, dc, ua]);
            SameEvents(o1, [KeyEvent(Down, 2, Some(b)), dc, KeyEvent(Up, 2, Some(b))]) &&
            UnremapKey(t1, Name(a)).Ok? &&
            Do(UnremapKey(t1, Name(a)).value, [da, dc, ua]).0 == [da, dc, ua]
  {
    var da, dc, ua := KeyEvent(Down, 1, Some(a)), KeyEvent(Down, 3, Some(c)), KeyEvent(Up, 1, Some(a));
    RemapAround(s1, da, dc, ua, s1.remaps[0]);
    BEvents(Do(s1, [da, dc, ua]).0, dc, b);
    UnremapOnly(Do(s1, [da, dc, ua]).1, Name(a), [da, dc, ua]);
  }

  /** Removing the only remap leaves a session everything passes through. */
  lemma UnremapOnly(t: Session, key: Key, events: seq<KeyEvent>)
    requires RemapsOnly(t) && |t.remaps| == 1 && t.remaps[0].key == key && t.outstanding == map[] && t.output == []
    ensures UnremapKey(t, key).Ok? && Do(UnremapKey(t, key).value, events).0 == events
  {
    assert FirstWhere(t.remaps, (x: Remap) => x.key == key) == 0;
    DoNoRules(UnremapKey(t, key).value, events);
  }

  /** `remap_key('a', 'shift+b')` on a fresh session. */
  lemma RemapAToShiftB(a: string, shift: string, b: string)
    requires a == "a" && shift == "shift" && b == "b"
    ensures RemapKey(Fresh(), Name(a), Name(shift + "+" + b)) == Ok(Fresh().(remaps := [Remap(Name(a), [1], [[5, 2]])]))
  {
    LetterA(a);
    ParseShiftLetter(shift, b, 2);
    ChosenTargets();
    RemapFresh(Name(a), Name(shift + "+" + b), [1], [[[5, 6], [2]]], [[5, 2]]);
  }

  /** `test_remap_key_multiple`, on the session `remap_key('a',
      'shift+b')` leaves (`RemapAToShiftB`): `d_a + d_c + u_a` comes out as
      `d_shift + d_b + d_c + u_b + u_shift`; after `unremap_key('a')` as it
      went in. */
  lemma RemapKeyMultiple(a: string, b: string, c: string, leftShift: string, s1: Session)
    requires a == "a" && b == "b" && c == "c" && leftShift == "left shift"
    requires RemapsOnly(s1) && s1.remaps == [Remap(Name(a), [1], [[5, 2]])] && s1.outstanding == map[] && s1.output == []
    ensures var da, dc, ua := KeyEvent(Down, 1, Some(a)), KeyEvent(Down, 3, Some(c)), KeyEvent(Up, 1, Some(a));
            var (o1, t1) := Do(s1, [da, dc, ua]);
            SameEvents(o1, [KeyEvent(Down, 5, Some(leftShift)), KeyEvent(Down, 2, Some(b)), dc,
                            KeyEvent(Up, 2, Some(b)), KeyEvent(Up, 5, Some(leftShift))]) &&
            UnremapKey(t1, Name(a)).Ok? &&
            Do(UnremapKey(t1, Name(a)).value, [da, dc, ua]).0 == [da, dc, ua]
  {
    var da, dc, ua := KeyEvent(Down, 1, Some(a)), KeyEvent(Down, 3, Some(c)), KeyEvent(Up, 1, Some(a));
    RemapAround(s1, da, dc, ua, s1.remaps[0]);
    ShiftBEvents(Do(s1, [da, dc, ua]).0, dc, b, leftShift);
    UnremapOnly(Do(s1, [da, dc, ua]).1, Name(a), [da, dc, ua]);
  }

  /** The events the remap to `b` sends around another key. */
  lemma BEvents(out: seq<KeyEvent>, x: KeyEvent, b: string)
    requires out == SendEvents([[2]], true, false) + [x] + SendEvents([[2]], false, true)
    ensures SameEvents(out, [KeyEvent(Down, 2, Some(b)), x, KeyEvent(Up, 2, Some(b))])
  {
    SendOneStep([2], true, false);
    SendOneStep([2], false, true);
  }

  /** The events the remap to `shift+b` sends around another key. */
  lemma ShiftBEvents(out: seq<KeyEvent>, x: KeyEvent, b: string, leftShift: string)
    requires out == SendEvents([[5, 2]], true, false) + [x] + SendEvents([[5, 2]], false, true)
    ensures SameEvents(out, [KeyEvent(Down, 5, Some(leftShift)), KeyEvent(Down, 2, Some(b)), x,
                             KeyEvent(Up, 2, Some(b)), KeyEvent(Up, 5, Some(leftShift))])
  {
    SendOneStep([5, 2], true, false);
    SendOneStep([5, 2], false, true);
    assert Reversed([5, 2]) == [2, 5];
  }

  /** `remap_key('A', 'b')` on a fresh session: both codes of `A`. */
  lemma RemapUpperAToB(upper: string, b: string)
    requires upper == "A" && b == "b"
    ensures RemapKey(Fresh(), Name(upper), Name(b)) == Ok(Fresh().(remaps := [Remap(Name(upper), [1, -1], [[2]])]))
  {
    UpperA(upper);
    ParseLetterB(b);
    ChosenTargets();
    RemapFresh(Name(upper), Name(b), [1, -1], [[[2]]], [[2]]);
  }

  /** `test_remap_key_ambiguous`, on the session `remap_key('A', 'b')`
      leaves (`RemapUpperAToB`): `d_a + d_b` comes out as `d_b + d_b`, and
      the Down of code -1 as `d_b`. */
  lemma RemapKeyAmbiguous(a: string, b: string, upper: string, s1: Session)
    requires a == "a" && b == "b" && upper == "A"
    requires RemapsOnly(s1) && s1.remaps == [Remap(Name(upper), [1, -1], [[2]])] && s1.outstanding == map[] && s1.output == []
    ensures var da, db, dA := KeyEvent(Down, 1, Some(a)), KeyEvent(Down, 2, Some(b)), KeyEvent(Down, -1, Some(upper));
            var (o1, t1) := Do(s1, [da, db]);
            SameEvents(o1, [db, db]) && SameEvents(Do(t1, [dA]).0, [db])
  {
    var da, db, dA := KeyEvent(Down, 1, Some(a)), KeyEvent(Down, 2, Some(b)), KeyEvent(Down, -1, Some(upper));
    var m := s1.remaps[0];
    OneRemap(m, 1);
    OneRemap(m, 2);
    OneRemap(m, -1);
    SendOneStep([2], true, false);
    InjectTwo(s1, da, db);
    RemapsOnlyDown(s1, da, [[2]]);
    RemapsOnlyPlain(Step(s1, da), db);
    var t1 := Do(s1, [da, db]).1;
    assert [dA][1..] == [];
    assert Inject(t1, [dA]) == Step(t1, dA);
    RemapsOnlyDown(t1, dA, [[2]]);
  }
}
