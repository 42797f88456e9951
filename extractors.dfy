/** The pure extractors over names and events: `get_typed_strings`, which
    replays events as typing, and `get_hotkey_name`, which writes a set of key
    names as one canonical hotkey string. */
module Extractors {
  import opened Events
  import opened Keys
  import opened KeyFacts

  // ---------------------------------------------------------------------
  // Strings.

  /** Python's `sub in s` for strings. */
  predicate Contains(s: string, sub: string)
    decreases |s|
  {
    if |s| < |sub| then false
    else s[..|sub|] == sub || Contains(s[1..], sub)
  }

  lemma {:induction false} ShortDoesNotContain(s: string, sub: string)
    requires |s| < |sub|
    ensures !Contains(s, sub)
  {
  }

  /** A string contains every character of each string it contains. */
  lemma {:induction false} ContainsChars(s: string, sub: string, c: char)
    requires Contains(s, sub) && c in sub
    ensures c in s
    decreases |s|
  {
    if s[..|sub|] == sub {
      var k :| 0 <= k < |sub| && sub[k] == c;
      assert s[k] == c;
    } else {
      ContainsChars(s[1..], sub, c);
      var k :| 0 <= k < |s[1..]| && s[1..][k] == c;
      assert s[k + 1] == c;
    }
  }

  /** No name without an `h` contains `shift`. */
  lemma NoShift(name: string)
    requires 'h' !in name
    ensures !Contains(name, "shift")
  {
    if Contains(name, "shift") {
      ContainsChars(name, "shift", 'h');
    }
  }

  /** A string contains each of its suffixes. */
  lemma {:induction false} ContainsSuffix(p: string, sub: string)
    ensures Contains(p + sub, sub)
    decreases |p|
  {
    if p == [] {
      assert (p + sub)[..|sub|] == sub;
    } else {
      ContainsSuffix(p[1..], sub);
      assert (p + sub)[1..] == p[1..] + sub;
    }
  }

  /** `s[:-1]`: the last character removed; the empty string stays empty. */
  function DropLast(s: string): (r: string)
    ensures s == [] ==> r == []
    ensures s != [] ==> r + [s[|s| - 1]] == s
  {
    if s == [] then [] else s[..|s| - 1]
  }

  /** `s.upper()` on the ASCII letters. */
  function Upper(s: string): (r: string)
    ensures |r| == |s| && forall i :: 0 <= i < |s| ==> r[i] == UpperChar(s[i])
  {
    seq(|s|, i requires 0 <= i < |s| => UpperChar(s[i]))
  }

  /** `s.replace(pat, rep)`: every non-overlapping occurrence of `pat`,
      scanning from the left, replaced by `rep`. */
  function ReplaceAll(s: string, pat: string, rep: string): (r: string)
    requires pat != []
    decreases |s|
  {
    if |s| < |pat| then s
    else if s[..|pat|] == pat then rep + ReplaceAll(s[|pat|..], pat, rep)
    else [s[0]] + ReplaceAll(s[1..], pat, rep)
  }

  /** Replacing a one-character pattern by text without that character
      leaves no occurrence of it. */
  lemma {:induction false} ReplaceAllRemoves(s: string, pat: string, rep: string)
    requires |pat| == 1 && pat[0] !in rep
    ensures pat[0] !in ReplaceAll(s, pat, rep)
  {
    if |s| >= |pat| {
      ReplaceAllRemoves(s[1..], pat, rep);
      if s[..1] != pat {
        assert s[0] != pat[0] by { assert s[..1] == [s[0]]; }
      }
    }
  }

  /** A string without the pattern is left as it is. */
  lemma {:induction false} ReplaceAllAbsent(s: string, pat: string, rep: string)
    requires pat != [] && !Contains(s, pat)
    ensures ReplaceAll(s, pat, rep) == s
  {
    if |s| >= |pat| {
      ReplaceAllAbsent(s[1..], pat, rep);
      assert [s[0]] + s[1..] == s;
    }
  }

  // ---------------------------------------------------------------------
  // get_typed_strings.

  /** What typing has produced so far: the shift and caps-lock toggles, the
      string being typed and the strings already ended. */
  datatype Typist = Typist(shift: bool, caps: bool, buffer: string, done: seq<string>)

  /** What a key name does to typing. */
  datatype Role = ShiftKey | CapsKey | BackspaceKey | Printable(text: string) | Breaking

  /** A name containing `shift` is a shift key; `caps lock` toggles caps lock;
      `backspace` erases when backspace is honoured; a name whose text is one
      character (`space` is a blank) types it; any other name ends the
      current string. */
  function RoleOf(name: string, allowBackspace: bool): (r: Role)
    ensures r.Printable? ==> |r.text| == 1
  {
    var text := if name == "space" then " " else name;
    if Contains(name, "shift") then ShiftKey
    else if name == "caps lock" then CapsKey
    else if allowBackspace && name == "backspace" then BackspaceKey
    else if |text| == 1 then Printable(text)
    else Breaking
  }

  /** One event of typing. A shift key sets the shift toggle to whether the
      event is a Down; every other key acts on its Down only: caps lock flips,
      backspace removes the last character, a printable key appends its text
      (upper-cased when exactly one of shift and caps lock is on) and any
      other key ends the current string. */
  function TypeEvent(t: Typist, kind: EventType, name: string, allowBackspace: bool): Typist
  {
    match RoleOf(name, allowBackspace)
    case ShiftKey => t.(shift := kind == Down)
    case _ =>
      if kind == Up then t
      else
        match RoleOf(name, allowBackspace)
        case CapsKey => t.(caps := !t.caps)
        case BackspaceKey => t.(buffer := DropLast(t.buffer))
        case Printable(text) => t.(buffer := t.buffer + (if t.shift != t.caps then Upper(text) else text))
        case Breaking => t.(done := t.done + [t.buffer], buffer := "")
  }

  /** Typing every event in order from nothing pressed; an event without a
      name cannot be typed. */
  function Typed(events: seq<KeyEvent>, allowBackspace: bool): Result<Typist>
    decreases |events|
  {
    if events == [] then Ok(Typist(false, false, "", []))
    else
      var last := events[|events| - 1];
      match Typed(events[..|events| - 1], allowBackspace)
      case Err(e) => Err(e)
      case Ok(t) =>
        if last.name.None? then Err(MissingName)
        else Ok(TypeEvent(t, last.kind, last.name.value, allowBackspace))
  }

  /** `get_typed_strings(events, allow_backspace)`: the ended strings and
      then the one still being typed. */
  function GetTypedStrings(events: seq<KeyEvent>, allowBackspace: bool): (r: Result<seq<string>>)
    ensures r.Ok? <==> forall i :: 0 <= i < |events| ==> events[i].name.Some?
    ensures r.Ok? ==> |r.value| >= 1
  {
    TypedNamed(events, allowBackspace);
    match Typed(events, allowBackspace)
    case Ok(t) => Ok(t.done + [t.buffer])
    case Err(e) => Err(e)
  }

  lemma {:induction false} TypedNamed(events: seq<KeyEvent>, allowBackspace: bool)
    ensures Typed(events, allowBackspace).Ok? <==> forall i :: 0 <= i < |events| ==> events[i].name.Some?
    decreases |events|
  {
    if events != [] {
      var init := events[..|events| - 1];
      TypedNamed(init, allowBackspace);
      assert forall i :: 0 <= i < |init| ==> init[i] == events[i];
    }
  }

  /** A Down that ends the current string. */
  predicate Breaks(e: KeyEvent, allowBackspace: bool)
    requires e.name.Some?
  {
    e.kind == Down && RoleOf(e.name.value, allowBackspace) == Breaking
  }

  /** How many events of a fully named list end a string. */
  function BreakCount(events: seq<KeyEvent>, allowBackspace: bool): nat
    requires forall i :: 0 <= i < |events| ==> events[i].name.Some?
    decreases |events|
  {
    if events == [] then 0
    else
      var init := events[..|events| - 1];
      assert forall i :: 0 <= i < |init| ==> init[i] == events[i];
      BreakCount(init, allowBackspace) + if Breaks(events[|events| - 1], allowBackspace) then 1 else 0
  }

  /** Every string but the last is ended by a breaking Down, so there is one
      string more than there are breaking Downs. */
  lemma {:induction false} TypedStringCount(events: seq<KeyEvent>, allowBackspace: bool)
    requires forall i :: 0 <= i < |events| ==> events[i].name.Some?
    ensures |GetTypedStrings(events, allowBackspace).value| == 1 + BreakCount(events, allowBackspace)
    ensures |Typed(events, allowBackspace).value.done| == BreakCount(events, allowBackspace)
    decreases |events|
  {
    if events != [] {
      var init := events[..|events| - 1];
      assert forall i :: 0 <= i < |init| ==> init[i] == events[i];
      TypedStringCount(init, allowBackspace);
    }
  }

  /** The text a list of one-character names types while no toggle is on:
      the names of its Downs, in order. */
  function DownText(events: seq<KeyEvent>): string
    requires forall i :: 0 <= i < |events| ==> events[i].name.Some?
    decreases |events|
  {
    if events == [] then ""
    else
      var init := events[..|events| - 1];
      var last := events[|events| - 1];
      assert forall i :: 0 <= i < |init| ==> init[i] == events[i];
      DownText(init) + if last.kind == Down then last.name.value else ""
  }

  /** Events whose names are single characters type exactly the characters of
      their Downs, as one string. */
  lemma {:induction false} PlainTyping(events: seq<KeyEvent>, allowBackspace: bool)
    requires forall i :: 0 <= i < |events| ==> events[i].name.Some? && |events[i].name.value| == 1
    ensures Typed(events, allowBackspace) == Ok(Typist(false, false, DownText(events), []))
    ensures GetTypedStrings(events, allowBackspace) == Ok([DownText(events)])
    decreases |events|
  {
    if events != [] {
      var init := events[..|events| - 1];
      assert forall i :: 0 <= i < |init| ==> init[i] == events[i];
      PlainTyping(init, allowBackspace);
      var last := events[|events| - 1];
      var name := last.name.value;
      ShortDoesNotContain(name, "shift");
      assert name != "caps lock" && name != "backspace" && name != "space";
      assert RoleOf(name, allowBackspace) == Printable(name);
      var t := Typist(false, false, DownText(init), []);
      assert Typed(init, allowBackspace) == Ok(t);
      assert Typed(events, allowBackspace) == Ok(TypeEvent(t, last.kind, name, allowBackspace));
      assert DownText(events) == DownText(init) + if last.kind == Down then name else "";
      assert TypeEvent(t, last.kind, name, allowBackspace)
          == Typist(false, false, DownText(events), []);
    }
    assert [] + [DownText(events)] == [DownText(events)];
  }

  /** Typing the events from a given state, front to back. */
  function TypeFrom(t: Typist, events: seq<KeyEvent>, allowBackspace: bool): Result<Typist>
    decreases |events|
  {
    if events == [] then Ok(t)
    else if events[0].name.None? then Err(MissingName)
    else TypeFrom(TypeEvent(t, events[0].kind, events[0].name.value, allowBackspace), events[1..], allowBackspace)
  }

  lemma {:induction false} TypeFromSnoc(t: Typist, events: seq<KeyEvent>, e: KeyEvent, allowBackspace: bool)
    ensures TypeFrom(t, events + [e], allowBackspace) ==
      match TypeFrom(t, events, allowBackspace)
      case Err(x) => Err(x)
      case Ok(u) => if e.name.None? then Err(MissingName) else Ok(TypeEvent(u, e.kind, e.name.value, allowBackspace))
    decreases |events|
  {
    if events == [] {
      assert [] + [e] == [e];
      assert [e][1..] == [];
    } else {
      assert (events + [e])[0] == events[0];
      assert (events + [e])[1..] == events[1..] + [e];
      if events[0].name.Some? {
        TypeFromSnoc(TypeEvent(t, events[0].kind, events[0].name.value, allowBackspace), events[1..], e, allowBackspace);
      }
    }
  }

  /** Typing back to front and front to back agree. */
  lemma {:induction false} TypedForward(events: seq<KeyEvent>, allowBackspace: bool)
    ensures Typed(events, allowBackspace) == TypeFrom(Typist(false, false, "", []), events, allowBackspace)
    decreases |events|
  {
    if events != [] {
      var init := events[..|events| - 1];
      var last := events[|events| - 1];
      TypedForward(init, allowBackspace);
      assert init + [last] == events;
      TypeFromSnoc(Typist(false, false, "", []), init, last, allowBackspace);
    }
  }

  /** Typing `events[i..]` from a given state, by position. */
  function TypeAt(t: Typist, events: seq<KeyEvent>, i: nat, allowBackspace: bool): Result<Typist>
    decreases |events| - i
  {
    if i >= |events| then Ok(t)
    else if events[i].name.None? then Err(MissingName)
    else TypeAt(TypeEvent(t, events[i].kind, events[i].name.value, allowBackspace), events, i + 1, allowBackspace)
  }

  lemma {:induction false} TypeAtIsTypeFrom(t: Typist, events: seq<KeyEvent>, i: nat, allowBackspace: bool)
    requires i <= |events|
    ensures TypeAt(t, events, i, allowBackspace) == TypeFrom(t, events[i..], allowBackspace)
    decreases |events| - i
  {
    if i < |events| {
      assert events[i..][0] == events[i] && events[i..][1..] == events[i + 1..];
      if events[i].name.Some? {
        TypeAtIsTypeFrom(TypeEvent(t, events[i].kind, events[i].name.value, allowBackspace), events, i + 1, allowBackspace);
      }
    }
  }

  /** One event typed, as a step of a longer list. */
  lemma Advance(t: Typist, events: seq<KeyEvent>, i: nat, allowBackspace: bool, u: Typist)
    requires i < |events| && events[i].name.Some?
    requires TypeEvent(t, events[i].kind, events[i].name.value, allowBackspace) == u
    ensures TypeAt(t, events, i, allowBackspace) == TypeAt(u, events, i + 1, allowBackspace)
  {
  }

  /** The text a printable key types in state `t`. */
  function Shown(t: Typist, text: string): string
  {
    if t.shift != t.caps then Upper(text) else text
  }

  /** A Down and Up of one key name, as a step of a longer list. */
  predicate TapAt(events: seq<KeyEvent>, i: nat, name: string)
  {
    i + 1 < |events| && events[i].kind == Down && events[i + 1].kind == Up &&
    events[i].name == Some(name) && events[i + 1].name == Some(name)
  }

  /** Tapping a printable key appends its text. */
  lemma TapPrintable(t: Typist, events: seq<KeyEvent>, i: nat, allowBackspace: bool, name: string, text: string)
    requires TapAt(events, i, name) && RoleOf(name, allowBackspace) == Printable(text)
    ensures TypeAt(t, events, i, allowBackspace) == TypeAt(t.(buffer := t.buffer + Shown(t, text)), events, i + 2, allowBackspace)
  {
  }

  /** Tapping backspace removes the last character. */
  lemma TapBackspace(t: Typist, events: seq<KeyEvent>, i: nat, allowBackspace: bool, name: string)
    requires TapAt(events, i, name) && RoleOf(name, allowBackspace) == BackspaceKey
    ensures TypeAt(t, events, i, allowBackspace) == TypeAt(t.(buffer := DropLast(t.buffer)), events, i + 2, allowBackspace)
  {
  }

  /** Tapping caps lock flips it. */
  lemma TapCaps(t: Typist, events: seq<KeyEvent>, i: nat, allowBackspace: bool, name: string)
    requires TapAt(events, i, name) && RoleOf(name, allowBackspace) == CapsKey
    ensures TypeAt(t, events, i, allowBackspace) == TypeAt(t.(caps := !t.caps), events, i + 2, allowBackspace)
  {
  }

  /** Tapping any other key ends the current string. */
  lemma TapBreaking(t: Typist, events: seq<KeyEvent>, i: nat, allowBackspace: bool, name: string)
    requires TapAt(events, i, name) && RoleOf(name, allowBackspace) == Breaking
    ensures TypeAt(t, events, i, allowBackspace) == TypeAt(t.(done := t.done + [t.buffer], buffer := ""), events, i + 2, allowBackspace)
  {
  }

  /** Pressing or releasing a shift key sets the shift toggle. */
  lemma ShiftEvent(t: Typist, events: seq<KeyEvent>, i: nat, allowBackspace: bool)
    requires i < |events| && events[i].name.Some? && RoleOf(events[i].name.value, allowBackspace) == ShiftKey
    ensures TypeAt(t, events, i, allowBackspace) == TypeAt(t.(shift := events[i].kind == Down), events, i + 1, allowBackspace)
  {
  }

  /** get_typed_strings read off a position-wise typing of the whole list. */
  lemma TypedStringsAt(events: seq<KeyEvent>, allowBackspace: bool, t: Typist)
    requires TypeAt(Typist(false, false, "", []), events, 0, allowBackspace) == TypeAt(t, events, |events|, allowBackspace)
    ensures GetTypedStrings(events, allowBackspace) == Ok(t.done + [t.buffer])
  {
    TypedForward(events, allowBackspace);
    TypeAtIsTypeFrom(Typist(false, false, "", []), events, 0, allowBackspace);
    assert events[0..] == events;
  }

  /** A backspace Down removes the last character typed, and nothing when
      nothing is typed; it never ends the string. */
  lemma TypedBackspace(events: seq<KeyEvent>, e: KeyEvent)
    requires Typed(events, true).Ok? && e == KeyEvent(Down, e.code, Some("backspace"))
    ensures Typed(events + [e], true).Ok?
    ensures Typed(events + [e], true).value.buffer == DropLast(Typed(events, true).value.buffer)
    ensures Typed(events + [e], true).value.done == Typed(events, true).value.done
  {
    var all := events + [e];
    assert all[..|all| - 1] == events;
    NoShift("backspace");
    assert RoleOf("backspace", true) == BackspaceKey;
  }

  // ---------------------------------------------------------------------
  // get_hotkey_name.

  /** Where a name goes in a hotkey name: ctrl, alt, shift and windows first,
      in that order, then everything else. */
  function Rank(name: string): (r: nat)
    ensures r <= 5
    ensures r < 5 <==> name == "ctrl" || name == "alt" || name == "shift" || name == "windows"
  {
    if name == "ctrl" then 0
    else if name == "alt" then 1
    else if name == "shift" then 2
    else if name == "windows" then 3
    else 5
  }

  /** Python's `<` on strings: code point by code point, a proper prefix first. */
  predicate StrLess(a: string, b: string)
    decreases |a|
  {
    if a == [] then b != []
    else if b == [] then false
    else if a[0] != b[0] then a[0] < b[0]
    else StrLess(a[1..], b[1..])
  }

  lemma {:induction false} StrLessIrreflexive(a: string)
    ensures !StrLess(a, a)
    decreases |a|
  {
    if a != [] {
      StrLessIrreflexive(a[1..]);
    }
  }

  lemma {:induction false} StrLessTransitive(a: string, b: string, c: string)
    requires StrLess(a, b) && StrLess(b, c)
    ensures StrLess(a, c)
    decreases |a|
  {
    if a != [] && b != [] && c != [] && a[0] == b[0] && b[0] == c[0] {
      StrLessTransitive(a[1..], b[1..], c[1..]);
    }
  }

  lemma {:induction false} StrLessTotal(a: string, b: string)
    requires a != b
    ensures StrLess(a, b) || StrLess(b, a)
    decreases |a|
  {
    if a != [] && b != [] && a[0] == b[0] {
      assert a == [a[0]] + a[1..] && b == [b[0]] + b[1..];
      StrLessTotal(a[1..], b[1..]);
    }
  }

  /** The sort key `(rank, name)` of get_hotkey_name, compared lexicographically. */
  predicate Before(a: string, b: string)
  {
    Rank(a) < Rank(b) || (Rank(a) == Rank(b) && StrLess(a, b))
  }

  lemma BeforeIrreflexive(a: string)
    ensures !Before(a, a)
  {
    StrLessIrreflexive(a);
  }

  lemma BeforeTransitive(a: string, b: string, c: string)
    requires Before(a, b) && Before(b, c)
    ensures Before(a, c)
  {
    if Rank(a) == Rank(b) && Rank(b) == Rank(c) {
      StrLessTransitive(a, b, c);
    }
  }

  lemma BeforeTotal(a: string, b: string)
    requires a != b
    ensures Before(a, b) || Before(b, a)
  {
    StrLessTotal(a, b);
  }

  /** Strictly increasing by the sort key (so also without duplicates). */
  predicate Ordered(xs: seq<string>)
  {
    forall i, j :: 0 <= i < j < |xs| ==> Before(xs[i], xs[j])
  }

  /** One name put in its place in an ordered list that lacks it. */
  function Insert(x: string, xs: seq<string>): (r: seq<string>)
    requires Ordered(xs) && x !in xs
    ensures Ordered(r) && |r| == |xs| + 1
    ensures forall y :: y in r <==> y == x || y in xs
  {
    if xs == [] then [x]
    else if Before(x, xs[0]) then
      InsertFront(x, xs);
      [x] + xs
    else
      BeforeTotal(x, xs[0]);
      var rest := Insert(x, xs[1..]);
      InsertBehind(x, xs, rest);
      [xs[0]] + rest
  }

  lemma InsertFront(x: string, xs: seq<string>)
    requires Ordered(xs) && xs != [] && Before(x, xs[0])
    ensures Ordered([x] + xs)
  {
    forall j | 0 < j < |xs| ensures Before(x, xs[j]) {
      BeforeTransitive(x, xs[0], xs[j]);
    }
  }

  lemma InsertBehind(x: string, xs: seq<string>, rest: seq<string>)
    requires Ordered(xs) && xs != [] && Before(xs[0], x) && Ordered(rest)
    requires forall y :: y in rest <==> y == x || y in xs[1..]
    ensures Ordered([xs[0]] + rest)
  {
    forall j | 0 <= j < |rest| ensures Before(xs[0], rest[j]) {
      var y := rest[j];
      assert y in rest;
      if y != x {
        var k :| 0 <= k < |xs[1..]| && xs[1..][k] == y;
        assert xs[k + 1] == y;
      }
    }
  }

  /** `sorted(names, key=...)` of a list without duplicates. */
  function Sort(xs: seq<string>): (r: seq<string>)
    requires NoDuplicates(xs)
    ensures Ordered(r) && NoDuplicates(r) && |r| == |xs|
    ensures forall y :: y in r <==> y in xs
  {
    if xs == [] then []
    else
      assert NoDuplicates(xs[1..]);
      assert xs[0] !in xs[1..];
      var r := Insert(xs[0], Sort(xs[1..]));
      OrderedDistinct(r);
      r
  }

  lemma OrderedDistinct(xs: seq<string>)
    requires Ordered(xs)
    ensures NoDuplicates(xs)
  {
    forall i, j | 0 <= i < j < |xs| ensures xs[i] != xs[j] {
      BeforeIrreflexive(xs[i]);
    }
  }

  /** The one ordered list of a set of names: two ordered lists with the same
      elements are equal. */
  lemma {:induction false} OrderedUnique(xs: seq<string>, ys: seq<string>)
    requires Ordered(xs) && Ordered(ys)
    requires forall y :: y in xs <==> y in ys
    ensures xs == ys
    decreases |xs|
  {
    if xs != [] && ys != [] {
      var x, y := xs[0], ys[0];
      assert x in ys && y in xs;
      if x != y {
        var i :| 0 <= i < |ys| && ys[i] == x;
        var j :| 0 <= j < |xs| && xs[j] == y;
        assert Before(y, x) && Before(x, y);
        BeforeTransitive(x, y, x);
        BeforeIrreflexive(x);
      }
      forall z ensures z in xs[1..] <==> z in ys[1..] {
        if z in xs[1..] {
          var k :| 0 <= k < |xs[1..]| && xs[1..][k] == z;
          assert xs[k + 1] == z && Before(x, z);
          BeforeIrreflexive(x);
          assert z in xs;
          assert z in ys;
          var m :| 0 <= m < |ys| && ys[m] == z;
          assert m != 0;
          assert ys[1..][m - 1] == z;
        }
        if z in ys[1..] {
          var k :| 0 <= k < |ys[1..]| && ys[1..][k] == z;
          assert ys[k + 1] == z && Before(y, z);
          BeforeIrreflexive(y);
          assert z in ys;
          assert z in xs;
          var m :| 0 <= m < |xs| && xs[m] == z;
          assert m != 0;
          assert xs[1..][m - 1] == z;
        }
      }
      OrderedUnique(xs[1..], ys[1..]);
    } else if xs != [] {
      HeadIn(xs);
      assert false;
    } else if ys != [] {
      HeadIn(ys);
      assert false;
    }
  }

  lemma HeadIn(xs: seq<string>)
    requires xs != []
    ensures xs[0] in xs
  {
  }

  /** A name as get_hotkey_name writes it: side prefixes dropped and `+`
      spelled `plus`. */
  function Clean(name: string): (r: string)
    ensures '+' !in r
  {
    ReplaceAllRemoves(ReplaceAll(ReplaceAll(name, "left ", ""), "right ", ""), "+", "plus");
    ReplaceAll(ReplaceAll(ReplaceAll(name, "left ", ""), "right ", ""), "+", "plus")
  }

  function CleanAll(names: seq<string>): (r: seq<string>)
    ensures |r| == |names| && forall i :: 0 <= i < |r| ==> r[i] == Clean(names[i])
  {
    seq(|names|, i requires 0 <= i < |names| => Clean(names[i]))
  }

  /** No string lacking a character of the pattern contains the pattern. */
  lemma LacksChar(s: string, pat: string, c: char)
    requires c in pat && c !in s
    ensures !Contains(s, pat)
  {
    if Contains(s, pat) {
      ContainsChars(s, pat, c);
    }
  }

  /** A pattern at the front is replaced and the rest scanned on. */
  lemma ReplaceAllLeading(pat: string, rest: string, rep: string)
    requires pat != []
    ensures ReplaceAll(pat + rest, pat, rep) == rep + ReplaceAll(rest, pat, rep)
  {
    assert (pat + rest)[..|pat|] == pat;
    assert (pat + rest)[|pat|..] == rest;
  }

  /** A name without blanks and `+` is already clean. */
  lemma CleanPlain(n: string)
    requires ' ' !in n && '+' !in n
    ensures Clean(n) == n
  {
    LacksChar(n, "left ", ' ');
    ReplaceAllAbsent(n, "left ", "");
    LacksChar(n, "right ", ' ');
    ReplaceAllAbsent(n, "right ", "");
    LacksChar(n, "+", '+');
    ReplaceAllAbsent(n, "+", "plus");
  }

  /** A sided name loses its side. */
  lemma CleanSided(side: string, n: string)
    requires side == "left " || (side == "right " && 'f' !in n)
    requires ' ' !in n && '+' !in n
    ensures Clean(side + n) == n
  {
    LacksChar(n, "left ", ' ');
    ReplaceAllAbsent(n, "left ", "");
    LacksChar(n, "right ", ' ');
    ReplaceAllAbsent(n, "right ", "");
    LacksChar(n, "+", '+');
    ReplaceAllAbsent(n, "+", "plus");
    if side == "left " {
      ReplaceAllLeading("left ", n, "");
      assert "" + n == n;
    } else {
      LacksChar(side + n, "left ", 'f');
      ReplaceAllAbsent(side + n, "left ", "");
      ReplaceAllLeading("right ", n, "");
      assert "" + n == n;
    }
  }

  /** The `+` key is written `plus`. */
  lemma CleanPlusSign(n: string)
    requires n == "+"
    ensures Clean(n) == "plus"
  {
    ShortDoesNotContain(n, "left ");
    ReplaceAllAbsent(n, "left ", "");
    ShortDoesNotContain(n, "right ");
    ReplaceAllAbsent(n, "right ", "");
    ReplaceAllLeading("+", "", "plus");
    assert n == "+" + "";
  }

  /** `'+'.join(parts)`, which is empty for no parts. */
  function JoinPlus(parts: seq<string>): string
  {
    if parts == [] then "" else Join(parts, "+")
  }

  /** `'+'.join` of two to five names, written out. */
  lemma JoinPlusSmall(v: string, w: string, x: string, y: string, z: string)
    ensures JoinPlus([v]) == v
    ensures JoinPlus([v, w]) == v + "+" + w
    ensures JoinPlus([v, w, x]) == v + "+" + w + "+" + x
    ensures JoinPlus([v, w, x, y]) == v + "+" + w + "+" + x + "+" + y
    ensures JoinPlus([v, w, x, y, z]) == v + "+" + w + "+" + x + "+" + y + "+" + z
  {
    var p := "+";
    JoinTwo(v, w, p);
    JoinTwo(y, z, p);
    JoinCons(x, [y, z], p);
    JoinCons(w, [x, y, z], p);
    JoinCons(v, [w, x, y, z], p);
    JoinTwo(x, y, p);
    JoinCons(w, [x, y], p);
    JoinCons(v, [w, x, y], p);
    JoinTwo(w, x, p);
    JoinCons(v, [w, x], p);
    assert v + p + (w + p + x) == v + p + w + p + x;
    assert v + p + (w + p + (x + p + y)) == v + p + w + p + x + p + y;
    assert v + p + (w + p + (x + p + (y + p + z))) == v + p + w + p + x + p + y + p + z;
  }

  lemma JoinTwo(v: string, w: string, sep: string)
    ensures Join([v, w], sep) == v + sep + w
  {
    assert [v, w][1..] == [w];
  }

  lemma JoinCons(v: string, rest: seq<string>, sep: string)
    requires rest != []
    ensures Join([v] + rest, sep) == v + sep + Join(rest, sep)
  {
    assert ([v] + rest)[1..] == rest;
  }

  /** The canonical hotkey name of a list of (normalised) names: the set of
      cleaned names, modifiers first, joined with `+`. */
  function HotkeyName(names: seq<string>): (r: string)
    ensures r == "" <==> names == [] || (forall i :: 0 <= i < |names| ==> Clean(names[i]) == "")
  {
    var sorted := Sort(Dedup(CleanAll(names)));
    NameOfSorted(names, sorted);
    JoinPlus(sorted)
  }

  lemma NameOfSorted(names: seq<string>, sorted: seq<string>)
    requires forall y :: y in sorted <==> y in CleanAll(names)
    requires NoDuplicates(sorted)
    ensures JoinPlus(sorted) == "" <==> names == [] || (forall i :: 0 <= i < |names| ==> Clean(names[i]) == "")
  {
    var cleaned := CleanAll(names);
    if |sorted| >= 2 {
      var k0, k1 := sorted[0], sorted[1];
      assert k0 != k1;
      assert k0 in sorted && k1 in sorted;
      assert |Join(sorted, "+")| >= |k0| + 1;
      var i :| 0 <= i < |cleaned| && cleaned[i] == k0;
      var j :| 0 <= j < |cleaned| && cleaned[j] == k1;
      assert Clean(names[i]) != "" || Clean(names[j]) != "";
    } else if |sorted| == 1 {
      var k := sorted[0];
      assert k in sorted;
      assert JoinPlus(sorted) == k;
      assert names != [] by {
        var i :| 0 <= i < |cleaned| && cleaned[i] == k;
      }
      if k == "" {
        forall i | 0 <= i < |names| ensures Clean(names[i]) == "" {
          var c := cleaned[i];
          assert c in cleaned;
          assert c in sorted;
          assert c == k;
        }
      } else {
        var i :| 0 <= i < |cleaned| && cleaned[i] == k;
        assert Clean(names[i]) == k;
      }
    } else if names != [] {
      HeadIn(cleaned);
      assert false;
    }
  }

  /** `get_hotkey_name(names)`: every name normalised first; an empty name is
      an error. */
  function GetHotkeyName(names: seq<string>): (r: Result<string>)
    ensures r.Ok? <==> forall i :: 0 <= i < |names| ==> names[i] != ""
  {
    match NormalizeAll(names)
    case Ok(normal) => Ok(HotkeyName(normal))
    case Err(e) => Err(e)
  }

  function NormalizeAll(names: seq<string>): (r: Result<seq<string>>)
    ensures r.Ok? <==> forall i :: 0 <= i < |names| ==> names[i] != ""
    ensures r.Ok? ==> |r.value| == |names|
    ensures r.Ok? ==> forall i :: 0 <= i < |names| ==> NormalizeName(names[i]) == Ok(r.value[i])
  {
    if forall i :: 0 <= i < |names| ==> names[i] != "" then
      Ok(seq(|names|, i requires 0 <= i < |names| => NormalizeName(names[i]).value))
    else Err(InvalidKey)
  }

  /** The hotkey name lists every cleaned name once, modifiers first: it is
      the one ordered list of the set of cleaned names, joined with `+`. */
  lemma HotkeyNameIsOrderedSet(names: seq<string>, order: seq<string>)
    requires Ordered(order)
    requires forall y :: y in order <==> exists i :: 0 <= i < |names| && Clean(names[i]) == y
    ensures HotkeyName(names) == JoinPlus(order)
  {
    var cleaned := CleanAll(names);
    var sorted := Sort(Dedup(cleaned));
    forall y ensures y in sorted <==> y in order {
      if y in order {
        var i :| 0 <= i < |names| && Clean(names[i]) == y;
        assert cleaned[i] == y;
      }
      if y in sorted {
        var i :| 0 <= i < |cleaned| && cleaned[i] == y;
      }
    }
    OrderedUnique(sorted, order);
  }

  /** Normalising name by name. */
  lemma NormalizeAllOk(names: seq<string>, normal: seq<string>)
    requires |names| == |normal|
    requires forall i :: 0 <= i < |names| ==> NormalizeName(names[i]) == Ok(normal[i])
    ensures NormalizeAll(names) == Ok(normal)
  {
    forall i | 0 <= i < |names| ensures names[i] != "" {
      assert NormalizeName(names[i]).Ok?;
    }
    var r := NormalizeAll(names);
    assert r.Ok?;
    assert forall i :: 0 <= i < |normal| ==> r.value[i] == normal[i];
    assert r.value == normal;
    assert r == Ok(r.value);
  }

  /** The hotkey name read off the cleaned names and an ordering of their set. */
  lemma HotkeyNameOfCleaned(names: seq<string>, cleaned: seq<string>, order: seq<string>)
    requires CleanAll(names) == cleaned && Ordered(order)
    requires forall y :: y in cleaned <==> y in order
    ensures HotkeyName(names) == JoinPlus(order)
  {
    forall y ensures y in order <==> exists i :: 0 <= i < |names| && Clean(names[i]) == y {
      if y in order {
        var i :| 0 <= i < |cleaned| && cleaned[i] == y;
      }
      if exists i :: 0 <= i < |names| && Clean(names[i]) == y {
        var i :| 0 <= i < |names| && Clean(names[i]) == y;
        assert cleaned[i] == y;
      }
    }
    HotkeyNameIsOrderedSet(names, order);
  }

  /** A hotkey name of plain names splits on `+` back into the ordered names. */
  lemma HotkeyNameSplits(names: seq<string>, order: seq<string>)
    requires Ordered(order) && order != []
    requires forall y :: y in order <==> exists i :: 0 <= i < |names| && Clean(names[i]) == y
    requires forall i :: 0 <= i < |order| ==> PlainKeyName(order[i])
    ensures SplitKeys(HotkeyName(names)) == order
  {
    HotkeyNameIsOrderedSet(names, order);
    SplitKeysJoin(order);
  }
}
