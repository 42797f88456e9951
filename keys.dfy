/** The key resolver: the scan-code table the tests install as the OS name
    lookup, name normalisation, `key_to_scan_codes`, `is_modifier` and
    `parse_hotkey`. Everything here is a pure function of its arguments and
    the table. */
module Keys {
  import opened Events

  // ---------------------------------------------------------------------
  // The scan-code table (`dummy_keys`) and the test shortcut `make_event`.

  /** A table entry: a scan code and the modifier names it needs. */
  type Entry = (int, seq<string>)

  function DummyKeys(name: string): Option<seq<Entry>>
  {
    if name == "space" then Some([(0, [])])
    else if name == "a" then Some([(1, [])])
    else if name == "b" then Some([(2, [])])
    else if name == "c" then Some([(3, [])])
    else if name == "A" then Some([(1, ["shift"]), (-1, [])])
    else if name == "B" then Some([(2, ["shift"]), (-2, [])])
    else if name == "C" then Some([(3, ["shift"]), (-3, [])])
    else if name == "alt" then Some([(4, [])])
    else if name == "left alt" then Some([(4, [])])
    else if name == "left shift" then Some([(5, [])])
    else if name == "right shift" then Some([(6, [])])
    else if name == "left ctrl" then Some([(7, [])])
    else if name == "backspace" then Some([(8, [])])
    else if name == "caps lock" then Some([(9, [])])
    else if name == "+" then Some([(10, [])])
    else if name == "," then Some([(11, [])])
    else if name == "_" then Some([(12, [])])
    else None
  }

  /** The scan codes of a list of entries, in table order. */
  function EntryCodes(entries: seq<Entry>): (r: seq<int>)
    ensures |r| == |entries| && forall i :: 0 <= i < |r| ==> r[i] == entries[i].0
  {
    seq(|entries|, i requires 0 <= i < |entries| => entries[i].0)
  }

  /** `make_event(event_type, name)`: the event of a table name, carrying the
      name and the code of its first entry. */
  function MakeEvent(kind: EventType, name: string): (e: KeyEvent)
    requires DummyKeys(name).Some? && |DummyKeys(name).value| > 0
    ensures e.kind == kind && e.name == Some(name) && e.code == DummyKeys(name).value[0].0
  {
    KeyEvent(kind, DummyKeys(name).value[0].0, Some(name))
  }

  // ---------------------------------------------------------------------
  // Characters and strings.

  /** Python's `\s` on the ASCII range. */
  predicate IsSpace(c: char)
  {
    c == ' ' || c == '\t' || c == '\n' || c == '\r' || c == '\U{000B}' || c == '\U{000C}'
  }

  function LowerChar(c: char): char
  {
    if 'A' <= c <= 'Z' then (c as int + 32) as char else c
  }

  function UpperChar(c: char): char
  {
    if 'a' <= c <= 'z' then (c as int - 32) as char else c
  }

  function Lower(s: string): (r: string)
    ensures |r| == |s| && forall i :: 0 <= i < |s| ==> r[i] == LowerChar(s[i])
  {
    seq(|s|, i requires 0 <= i < |s| => LowerChar(s[i]))
  }

  /** `s.replace(a, b)` for single characters. */
  function ReplaceChar(s: string, a: char, b: char): (r: string)
    ensures |r| == |s| && forall i :: 0 <= i < |s| ==> r[i] == if s[i] == a then b else s[i]
  {
    seq(|s|, i requires 0 <= i < |s| => if s[i] == a then b else s[i])
  }

  /** The index of the first `c` in `s`, or `|s|` when there is none. */
  function IndexOf(s: string, c: char): (i: nat)
    ensures i <= |s|
    ensures i < |s| ==> s[i] == c
    ensures forall j :: 0 <= j < i ==> s[j] != c
  {
    if s == [] then 0 else if s[0] == c then 0 else 1 + IndexOf(s[1..], c)
  }

  lemma IndexOfIs(s: string, c: char, k: nat)
    requires k <= |s| && (k < |s| ==> s[k] == c)
    requires forall j :: 0 <= j < k ==> s[j] != c
    ensures IndexOf(s, c) == k
  {
  }

  // ---------------------------------------------------------------------
  // Name normalisation.

  /** The synonyms of the canonical-name table that this model carries. */
  function CanonicalName(name: string): Option<string>
  {
    if name == "control" then Some("ctrl")
    else if name == "left control" then Some("left ctrl")
    else if name == "right control" then Some("right ctrl")
    else if name == "win" then Some("windows")
    else if name == "left win" then Some("left windows")
    else if name == "right win" then Some("right windows")
    else if name == "plus" then Some("+")
    else if name == "comma" then Some(",")
    else None
  }

  /** The modifier families whose bare name stands for both sides. */
  predicate IsSided(name: string)
  {
    name == "ctrl" || name == "alt" || name == "shift" || name == "windows"
  }

  /** Every modifier name (`all_modifiers`). */
  const AllModifiers: set<string> := {
    "alt", "alt gr", "ctrl", "shift", "windows",
    "left ctrl", "left alt", "left shift", "left windows",
    "right ctrl", "right alt", "right shift", "right windows"
  }

  /** `normalize_name`: names longer than one character are lower-cased, `_`
      stands for a space (unless the name is `_` itself), and synonyms map to
      their canonical spelling. The empty name is an error. */
  function NormalizeName(name: string): (r: Result<string>)
    ensures r.Ok? <==> name != ""
    ensures r.Ok? ==> r.value != ""
  {
    if name == "" then Err(InvalidKey)
    else
      var lowered := if |name| > 1 then Lower(name) else name;
      var spaced := if lowered != "_" && '_' in lowered then ReplaceChar(lowered, '_', ' ') else lowered;
      Ok(match CanonicalName(spaced) case Some(c) => c case None => spaced)
  }

  lemma CtrlSpellingsNormal(v: string)
    requires v == "ctrl" || v == "left ctrl" || v == "right ctrl"
    ensures Lower(v) == v && '_' !in v && CanonicalName(v).None?
  {
  }

  lemma WindowsSpellingsNormal(v: string)
    requires v == "windows" || v == "left windows" || v == "right windows"
    ensures Lower(v) == v && '_' !in v && CanonicalName(v).None?
  {
  }

  /** Every canonical spelling is its own normal form. */
  lemma CanonicalIsNormal(k: string)
    requires CanonicalName(k).Some?
    ensures NormalizeName(CanonicalName(k).value) == Ok(CanonicalName(k).value)
  {
    var v := CanonicalName(k).value;
    if v == "ctrl" || v == "left ctrl" || v == "right ctrl" {
      CtrlSpellingsNormal(v);
    } else if v == "windows" || v == "left windows" || v == "right windows" {
      WindowsSpellingsNormal(v);
    } else {
      assert v == "+" || v == ",";
    }
  }

  /** Normalising a normalised name changes nothing. */
  lemma NormalizeIdempotent(name: string)
    requires name != ""
    ensures NormalizeName(NormalizeName(name).value) == NormalizeName(name)
  {
    var n := NormalizeName(name).value;
    var lowered := if |name| > 1 then Lower(name) else name;
    var spaced := if lowered != "_" && '_' in lowered then ReplaceChar(lowered, '_', ' ') else lowered;
    if CanonicalName(spaced).Some? {
      CanonicalIsNormal(spaced);
    } else {
      assert n == spaced;
      assert |spaced| == |name|;
      if |name| > 1 {
        assert Lower(spaced) == spaced;
      }
      assert spaced == "_" || '_' !in spaced;
    }
  }

  // ---------------------------------------------------------------------
  // key_to_scan_codes.

  /** What the resolver accepts: a name, a scan code, a list of keys; `NoKey`
      stands for Python's `None` and `OtherKey` for any other type (a dict). */
  datatype Key = Name(s: string) | Code(c: int) | Keys(items: seq<Key>) | NoKey | OtherKey

  predicate NoDuplicates<T(==)>(xs: seq<T>)
  {
    forall i, j :: 0 <= i < j < |xs| ==> xs[i] != xs[j]
  }

  /** The elements of `xs` that are not in `seen`, first occurrence only, in order. */
  function DedupFrom<T(==,!new)>(xs: seq<T>, seen: set<T>): (r: seq<T>)
    ensures forall x :: x in r <==> x in xs && x !in seen
    ensures NoDuplicates(r)
    ensures |r| <= |xs|
  {
    if xs == [] then []
    else if xs[0] in seen then DedupFrom(xs[1..], seen)
    else [xs[0]] + DedupFrom(xs[1..], seen + {xs[0]})
  }

  /** The position of the first occurrence of `x` in `xs`. */
  function FirstIndex<T(==)>(xs: seq<T>, x: T): (i: nat)
    requires x in xs
    ensures i < |xs| && xs[i] == x && forall k :: 0 <= k < i ==> xs[k] != x
  {
    if xs[0] == x then 0 else 1 + FirstIndex(xs[1..], x)
  }

  /** `DedupFrom` keeps the order in which values first occur. */
  lemma {:induction false} DedupFromOrder<T(!new)>(xs: seq<T>, seen: set<T>)
    ensures forall i, j :: 0 <= i < j < |DedupFrom(xs, seen)| ==>
              FirstIndex(xs, DedupFrom(xs, seen)[i]) < FirstIndex(xs, DedupFrom(xs, seen)[j])
    decreases |xs|
  {
    if xs != [] {
      var tail := xs[1..];
      var r := DedupFrom(xs, seen);
      var seen1 := if xs[0] in seen then seen else seen + {xs[0]};
      var rest := DedupFrom(tail, seen1);
      DedupFromOrder(tail, seen1);
      assert r == if xs[0] in seen then rest else [xs[0]] + rest;
      forall i, j | 0 <= i < j < |r| ensures FirstIndex(xs, r[i]) < FirstIndex(xs, r[j]) {
        var k := if xs[0] in seen then 0 else 1;
        assert r[j] == rest[j - k] && rest[j - k] in rest;
        FirstIndexTail(xs, rest[j - k]);
        if i >= k {
          assert r[i] == rest[i - k] && rest[i - k] in rest;
          FirstIndexTail(xs, rest[i - k]);
        }
      }
    }
  }

  lemma FirstIndexTail<T>(xs: seq<T>, y: T)
    requires xs != [] && y in xs[1..] && y != xs[0]
    ensures FirstIndex(xs, y) == 1 + FirstIndex(xs[1..], y)
  {
  }

  /** Duplicates removed, first occurrences kept in order (the OrderedDict idiom). */
  function Dedup<T(==,!new)>(xs: seq<T>): (r: seq<T>)
    ensures forall x :: x in r <==> x in xs
    ensures NoDuplicates(r)
    ensures |r| <= |xs|
    ensures forall i, j :: 0 <= i < j < |r| ==> FirstIndex(xs, r[i]) < FirstIndex(xs, r[j])
  {
    DedupFromOrder(xs, {});
    DedupFrom(xs, {})
  }

  lemma DedupOfDistinct<T(!new)>(xs: seq<T>, seen: set<T>)
    requires NoDuplicates(xs) && forall x :: x in xs ==> x !in seen
    ensures DedupFrom(xs, seen) == xs
  {
    if xs != [] {
      assert forall x :: x in xs[1..] ==> x !in seen + {xs[0]};
      DedupOfDistinct(xs[1..], seen + {xs[0]});
    }
  }

  /** The elements of `xs` that are not in `ys`, in order. */
  function Without(xs: seq<int>, ys: seq<int>): (r: seq<int>)
    ensures forall x :: x in r <==> x in xs && x !in ys
    ensures |r| <= |xs|
  {
    if xs == [] then [] else (if xs[0] in ys then [] else [xs[0]]) + Without(xs[1..], ys)
  }

  /** The scan codes the table lists for a normalised name, duplicates removed;
      nothing when the table has no such name. */
  function TableCodes(normalized: string): (r: seq<int>)
    ensures DummyKeys(normalized).Some? ==> forall c :: c in r <==> c in EntryCodes(DummyKeys(normalized).value)
    ensures DummyKeys(normalized).None? ==> r == []
  {
    match DummyKeys(normalized)
    case Some(entries) => Dedup(EntryCodes(entries))
    case None => []
  }

  /** `key_to_scan_codes(key, error_if_missing)`. */
  function KeyToScanCodes(key: Key, errorIfMissing: bool): (r: Result<seq<int>>)
    decreases key
  {
    match key
    case Code(c) => Ok([c])
    case Keys(items) => ListCodes(items, 0)
    case NoKey => Err(InvalidKey)
    case OtherKey => Err(InvalidKey)
    case Name(s) =>
      match NormalizeName(s)
      case Err(e) => Err(e)
      case Ok(n) =>
        if IsSided(n) then
          var left := TableCodes("left " + n);
          Ok(left + Without(TableCodes("right " + n), left))
        else
          var t := TableCodes(n);
          if t == [] && errorIfMissing then Err(InvalidKey) else Ok(t)
  }

  /** The codes of `items[from..]`, each resolved strictly, concatenated. */
  function ListCodes(items: seq<Key>, from: nat): (r: Result<seq<int>>)
    requires from <= |items|
    decreases items, |items| - from
  {
    if from == |items| then Ok([])
    else
      match KeyToScanCodes(items[from], true)
      case Err(e) => Err(e)
      case Ok(head) =>
        match ListCodes(items, from + 1)
        case Err(e) => Err(e)
        case Ok(tail) => Ok(head + tail)
  }

  /** The strict resolver `key_to_scan_codes(key)`. */
  function ScanCodes(key: Key): Result<seq<int>>
  {
    KeyToScanCodes(key, true)
  }

  // ---------------------------------------------------------------------
  // is_modifier.

  /** The codes of a name, or none when it does not resolve. */
  function LenientCodes(name: string): seq<int>
  {
    match KeyToScanCodes(Name(name), false)
    case Ok(cs) => cs
    case Err(_) => []
  }

  /** Every scan code that some name of `names` resolves to. */
  function CodesOfNames(names: set<string>): (r: set<int>)
    ensures forall n, c :: n in names && c in LenientCodes(n) ==> c in r
  {
    set n, c | n in names && c in LenientCodes(n) :: c
  }

  /** Every scan code that some modifier name resolves to. */
  function ModifierCodes(): set<int>
  {
    CodesOfNames(AllModifiers)
  }

  /** `is_modifier` on a name: membership of the literal name, not normalised. */
  predicate IsModifierName(name: string)
  {
    name in AllModifiers
  }

  /** `is_modifier` on a scan code. */
  predicate IsModifierCode(code: int)
  {
    code in ModifierCodes()
  }

  // ---------------------------------------------------------------------
  // parse_hotkey.

  /** A parsed hotkey: steps, each a list of keys, each a list of alternative codes. */
  type Steps = seq<seq<seq<int>>>

  /** `re.split(r',\s?', s)`. */
  function SplitSteps(s: string): (parts: seq<string>)
    ensures |parts| >= 1
    decreases |s|
  {
    var i := IndexOf(s, ',');
    if i == |s| then [s]
    else
      var j := if i + 1 < |s| && IsSpace(s[i + 1]) then i + 2 else i + 1;
      [s[..i]] + SplitSteps(s[j..])
  }

  /** `re.split(r'\s?\+\s?', s)`: the leftmost match takes one blank before
      the `+` and one after it when they are there. */
  function SplitKeys(s: string): (parts: seq<string>)
    ensures |parts| >= 1
    decreases |s|
  {
    var q := IndexOf(s, '+');
    if q == |s| then [s]
    else
      var start := if q > 0 && IsSpace(s[q - 1]) then q - 1 else q;
      var end := if q + 1 < |s| && IsSpace(s[q + 1]) then q + 2 else q + 1;
      [s[..start]] + SplitKeys(s[end..])
  }

  /** The codes of every key name of one step, in order. */
  function StepCodes(names: seq<string>): (r: Result<seq<seq<int>>>)
    ensures r.Ok? ==> |r.value| == |names|
  {
    if names == [] then Ok([])
    else
      match ScanCodes(Name(names[0]))
      case Err(e) => Err(e)
      case Ok(head) =>
        match StepCodes(names[1..])
        case Err(e) => Err(e)
        case Ok(tail) => Ok([head] + tail)
  }

  /** The codes of every step of a split hotkey string. */
  function StepsCodes(steps: seq<string>): (r: Result<Steps>)
    ensures r.Ok? ==> |r.value| == |steps|
  {
    if steps == [] then Ok([])
    else
      match StepCodes(SplitKeys(steps[0]))
      case Err(e) => Err(e)
      case Ok(head) =>
        match StepsCodes(steps[1..])
        case Err(e) => Err(e)
        case Ok(tail) => Ok([head] + tail)
  }

  /** A list whose items are all scan-code lists of lists: an already parsed
      hotkey, read back as steps. */
  function AsSteps(items: seq<Key>): (r: Result<Steps>)
    ensures r.Ok? ==> |r.value| == |items|
  {
    if items == [] then Ok([])
    else
      match (items[0], AsSteps(items[1..]))
      case (Keys(step), Ok(tail)) =>
        (match AsStep(step)
         case Ok(s) => Ok([s] + tail)
         case Err(e) => Err(e))
      case _ => Err(InvalidKey)
  }

  function AsStep(keys: seq<Key>): Result<seq<seq<int>>>
  {
    if keys == [] then Ok([])
    else
      match (keys[0], AsStep(keys[1..]))
      case (Keys(alternatives), Ok(tail)) =>
        if forall k :: k in alternatives ==> k.Code? then
          Ok([seq(|alternatives|, i requires 0 <= i < |alternatives| => alternatives[i].c)] + tail)
        else Err(InvalidKey)
      case _ => Err(InvalidKey)
  }

  /** `parse_hotkey`: a scan code or a one-element name or list is a single
      step with a single key; a flat list is one step of its items; a string
      is split into steps on `,` and into keys on `+`. */
  function ParseHotkey(hotkey: Key): (r: Result<Steps>)
    ensures r.Ok? ==> |r.value| >= 1
  {
    match hotkey
    case Code(c) => Ok([[[c]]])
    case Name(s) =>
      if |s| == 1 then
        (match ScanCodes(hotkey) case Ok(cs) => Ok([[cs]]) case Err(e) => Err(e))
      else StepsCodes(SplitSteps(s))
    case Keys(items) =>
      if |items| == 1 then
        (match ScanCodes(hotkey) case Ok(cs) => Ok([[cs]]) case Err(e) => Err(e))
      else if forall k :: k in items ==> !k.Keys? then
        (match StepCodesOfKeys(items) case Ok(step) => Ok([step]) case Err(e) => Err(e))
      else
        AsSteps(items)
    case NoKey => Err(InvalidKey)
    case OtherKey => Err(InvalidKey)
  }

  /** The codes of each key of a flat list, in order. */
  function StepCodesOfKeys(items: seq<Key>): (r: Result<seq<seq<int>>>)
    ensures r.Ok? ==> |r.value| == |items|
  {
    if items == [] then Ok([])
    else
      match ScanCodes(items[0])
      case Err(e) => Err(e)
      case Ok(head) =>
        match StepCodesOfKeys(items[1..])
        case Err(e) => Err(e)
        case Ok(tail) => Ok([head] + tail)
  }
}
