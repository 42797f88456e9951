/** Properties of the key resolver and the hotkey parser: the table is read
    verbatim, resolution ignores case and separators, and formatting a grid of
    plain key names then parsing it resolves every name in place. */
module KeyFacts {
  import opened Events
  import opened Keys

  // ---------------------------------------------------------------------
  // key_to_scan_codes.

  /** A name that normalises to `n`, outside the sided families, resolves to
      the table codes of `n`. */
  lemma ResolvesViaTable(s: string, n: string)
    requires NormalizeName(s) == Ok(n) && !IsSided(n) && DummyKeys(n).Some?
    requires NoDuplicates(EntryCodes(DummyKeys(n).value))
    ensures ScanCodes(Name(s)) == Ok(EntryCodes(DummyKeys(n).value))
  {
    DedupOfDistinct(EntryCodes(DummyKeys(n).value), {});
  }

  /** A name that normalises to a sided family resolves to the left codes
      followed by the right codes not already among them. */
  lemma ResolvesViaSides(s: string, n: string, left: seq<int>, right: seq<int>)
    requires NormalizeName(s) == Ok(n) && IsSided(n)
    requires TableCodes("left " + n) == left && TableCodes("right " + n) == right
    ensures ScanCodes(Name(s)) == Ok(left + Without(right, left))
  {
  }

  /** A name already in normal form normalises to itself. */
  lemma NormalAlready(n: string)
    requires n != "" && CanonicalName(n).None?
    requires |n| == 1 || Lower(n) == n
    requires n == "_" || '_' !in n
    ensures NormalizeName(n) == Ok(n)
  {
  }

  /** A name already in normal form, outside the synonyms and the sided families. */
  predicate NormalPlain(n: string)
  {
    n != "" && (|n| == 1 || (Lower(n) == n && '_' !in n)) && (n == "_" || '_' !in n) &&
    CanonicalName(n).None? && !IsSided(n)
  }

  /** A table name in normal form resolves to its table codes, strictly and leniently. */
  lemma PlainTableName(n: string, codes: seq<int>)
    requires NormalPlain(n) && DummyKeys(n).Some?
    requires EntryCodes(DummyKeys(n).value) == codes && NoDuplicates(codes)
    ensures TableCodes(n) == codes
    ensures ScanCodes(Name(n)) == Ok(codes) && LenientCodes(n) == codes
  {
    NormalAlready(n);
    ResolvesViaTable(n, n);
  }

  /** A name in normal form that the table lacks is an error when strict and
      resolves to nothing when lenient. */
  lemma AbsentName(n: string)
    requires NormalPlain(n) && DummyKeys(n).None?
    ensures TableCodes(n) == []
    ensures ScanCodes(Name(n)) == Err(InvalidKey) && LenientCodes(n) == []
  {
    NormalAlready(n);
  }

  /** Removing codes none of which occur changes nothing. */
  lemma {:induction false} WithoutDisjoint(xs: seq<int>, ys: seq<int>)
    requires forall x :: x in xs ==> x !in ys
    ensures Without(xs, ys) == xs
  {
    if xs != [] {
      var tail := xs[1..];
      var head := xs[0];
      assert head in xs;
      forall x | x in tail ensures x !in ys {
        assert x in xs;
      }
      WithoutDisjoint(tail, ys);
      calc {
        Without(xs, ys);
        [xs[0]] + Without(tail, ys);
        [xs[0]] + tail;
        xs;
      }
    }
  }

  /** A family name resolves to its left codes and then its right codes not
      already among them, strictly and leniently. */
  lemma SidedName(n: string, left: seq<int>, right: seq<int>)
    requires IsSided(n) && CanonicalName(n).None? && Lower(n) == n && '_' !in n
    requires TableCodes("left " + n) == left && TableCodes("right " + n) == right
    ensures ScanCodes(Name(n)) == Ok(left + Without(right, left))
    ensures LenientCodes(n) == left + Without(right, left)
  {
    NormalAlready(n);
  }

  /** A scan code resolves to itself. */
  lemma CodeResolves(c: int)
    ensures ScanCodes(Code(c)) == Ok([c])
  {
  }

  /** Resolving a name longer than one character ignores case and reads `_`
      as a space. */
  lemma {:induction false} ResolutionIgnoresCaseAndUnderscore(s: string)
    requires |s| > 1
    ensures ScanCodes(Name(s)) == ScanCodes(Name(Lower(ReplaceChar(s, '_', ' '))))
  {
    var t := Lower(ReplaceChar(s, '_', ' '));
    var spacedS := if '_' in Lower(s) then ReplaceChar(Lower(s), '_', ' ') else Lower(s);
    assert spacedS == t;
    assert Lower(t) == t;
    assert '_' !in t;
    assert NormalizeName(s) == NormalizeName(t);
  }

  /** Resolving a name and resolving its normal form agree. */
  lemma ResolutionOfNormalForm(s: string)
    requires s != ""
    ensures ScanCodes(Name(s)) == ScanCodes(Name(NormalizeName(s).value))
  {
    NormalizeIdempotent(s);
  }

  // ---------------------------------------------------------------------
  // is_modifier.

  /** Every code of a set of names, each resolving within `lo..hi`, is within it. */
  lemma CodesOfNamesWithin(names: set<string>, lo: int, hi: int)
    requires forall n :: n in names ==> forall c :: c in LenientCodes(n) ==> lo <= c <= hi
    ensures forall c :: c in CodesOfNames(names) ==> lo <= c <= hi
  {
  }

  // ---------------------------------------------------------------------
  // parse_hotkey.

  /** `parts` joined with `sep` between neighbours. Its own contract only
      bounds the length by the first part; `JoinLength` bounds it by every
      part and separator, and `JoinHasNo` shows that a character found in
      no part and not in the separator is not in the join. */
  function Join(parts: seq<string>, sep: string): (r: string)
    requires |parts| >= 1
    ensures |r| >= |parts[0]|
  {
    if |parts| == 1 then parts[0] else parts[0] + sep + Join(parts[1..], sep)
  }

  /** A key name that can stand between separators: not empty, without `+`
      or `,`, and not starting or ending with a blank. */
  predicate PlainKeyName(k: string)
  {
    k != "" && '+' !in k && ',' !in k && !IsSpace(k[0]) && !IsSpace(k[|k| - 1])
  }

  predicate PlainGrid(names: seq<seq<string>>)
  {
    |names| >= 1 &&
    (forall i :: 0 <= i < |names| ==> |names[i]| >= 1) &&
    (forall i, j :: 0 <= i < |names| && 0 <= j < |names[i]| ==> PlainKeyName(names[i][j]))
  }

  /** The hotkey string `k+k, k+k` of a grid of key names. */
  function FormatHotkey(names: seq<seq<string>>): string
    requires PlainGrid(names)
  {
    Join(StepStrings(names), ", ")
  }

  function StepStrings(names: seq<seq<string>>): (r: seq<string>)
    requires forall i :: 0 <= i < |names| ==> |names[i]| >= 1
    ensures |r| == |names| && forall i :: 0 <= i < |r| ==> r[i] == Join(names[i], "+")
  {
    seq(|names|, i requires 0 <= i < |names| => Join(names[i], "+"))
  }

  /** The reference for parsing: every name of the grid resolved in place. */
  function GridCodes(names: seq<seq<string>>): (r: Result<Steps>)
    ensures r.Ok? ==> |r.value| == |names|
  {
    if names == [] then Ok([])
    else
      match StepCodes(names[0])
      case Err(e) => Err(e)
      case Ok(head) =>
        match GridCodes(names[1..])
        case Err(e) => Err(e)
        case Ok(tail) => Ok([head] + tail)
  }

  lemma {:induction false} JoinHasNo(parts: seq<string>, sep: string, c: char)
    requires |parts| >= 1 && c !in sep
    requires forall i :: 0 <= i < |parts| ==> c !in parts[i]
    ensures c !in Join(parts, sep)
  {
    if |parts| > 1 {
      JoinHasNo(parts[1..], sep, c);
    }
  }

  lemma {:induction false} JoinStartsWith(parts: seq<string>, sep: string)
    requires |parts| >= 1 && |parts[0]| >= 1
    ensures Join(parts, sep)[0] == parts[0][0]
  {
  }

  /** Splitting keys joined with `+` gives the keys back. */
  lemma {:induction false} SplitKeysJoin(keys: seq<string>)
    requires |keys| >= 1 && forall i :: 0 <= i < |keys| ==> PlainKeyName(keys[i])
    ensures SplitKeys(Join(keys, "+")) == keys
  {
    var s := Join(keys, "+");
    var k0 := keys[0];
    if |keys| == 1 {
      IndexOfIs(s, '+', |s|);
    } else {
      var rest := Join(keys[1..], "+");
      assert s == k0 + "+" + rest;
      IndexOfIs(s, '+', |k0|);
      assert !IsSpace(s[|k0| - 1]);
      JoinStartsWith(keys[1..], "+");
      assert !IsSpace(s[|k0| + 1]);
      assert s[..|k0|] == k0;
      assert s[|k0| + 1..] == rest;
      SplitKeysJoin(keys[1..]);
    }
  }

  /** Splitting steps joined with `, ` gives the steps back. */
  lemma {:induction false} SplitStepsJoin(steps: seq<string>)
    requires |steps| >= 1 && forall i :: 0 <= i < |steps| ==> ',' !in steps[i]
    ensures SplitSteps(Join(steps, ", ")) == steps
  {
    var s := Join(steps, ", ");
    var p0 := steps[0];
    if |steps| == 1 {
      IndexOfIs(s, ',', |s|);
    } else {
      var rest := Join(steps[1..], ", ");
      assert s == p0 + ", " + rest;
      IndexOfIs(s, ',', |p0|);
      assert IsSpace(s[|p0| + 1]);
      assert s[..|p0|] == p0;
      assert s[|p0| + 2..] == rest;
      SplitStepsJoin(steps[1..]);
    }
  }

  lemma {:induction false} StepsCodesOfJoined(names: seq<seq<string>>)
    requires PlainGrid(names) || names == []
    ensures StepsCodes(StepStrings(names)) == GridCodes(names)
  {
    if names != [] {
      var ss := StepStrings(names);
      SplitKeysJoin(names[0]);
      assert ss[1..] == StepStrings(names[1..]);
      if |names| > 1 {
        assert PlainGrid(names[1..]) by {
          forall i, j | 0 <= i < |names[1..]| && 0 <= j < |names[1..][i]|
            ensures PlainKeyName(names[1..][i][j])
          {
            assert names[1..][i] == names[i + 1];
          }
        }
      }
      StepsCodesOfJoined(names[1..]);
    }
  }

  lemma {:induction false} JoinLength(parts: seq<string>, sep: string)
    requires |parts| >= 1 && forall i :: 0 <= i < |parts| ==> |parts[i]| >= 1
    ensures |Join(parts, sep)| >= 2 * |parts| - 1 + (|parts| - 1) * (|sep| - 1)
  {
    if |parts| > 1 {
      JoinLength(parts[1..], sep);
    }
  }

  /** Parsing the formatted string of a grid of plain names resolves every
      name of the grid in place: `,` separates steps and `+` separates keys. */
  lemma {:induction false} ParseFormatted(names: seq<seq<string>>)
    requires PlainGrid(names)
    ensures ParseHotkey(Name(FormatHotkey(names))) == GridCodes(names)
  {
    var ss := StepStrings(names);
    forall i | 0 <= i < |ss| ensures ',' !in ss[i] {
      JoinHasNo(names[i], "+", ',');
    }
    SplitStepsJoin(ss);
    StepsCodesOfJoined(names);
    var f := FormatHotkey(names);
    if |f| == 1 {
      forall i | 0 <= i < |ss| ensures |ss[i]| >= 1 {
        JoinLength(names[i], "+");
      }
      JoinLength(ss, ", ");
      assert |names| == 1;
      JoinLength(names[0], "+");
      assert |names[0]| == 1;
      assert f == names[0][0];
      assert names[0][1..] == [] && names[1..] == [];
      assert StepCodes(names[0][1..]) == Ok([]);
      assert GridCodes(names[1..]) == Ok([]);
      match ScanCodes(Name(f))
      case Ok(cs) =>
        assert [cs] + [] == [cs];
        assert ScanCodes(Name(names[0][0])) == Ok(cs);
        assert StepCodes(names[0]) == Ok([cs]);
        assert [[cs]] + [] == [[cs]];
      case Err(e) =>
        assert StepCodes(names[0]) == Err(e);
    }
  }

  /** The codes of a one-key and of a two-key step. */
  lemma StepCodesOfTwo(k1: string, k2: string, c1: seq<int>, c2: seq<int>)
    requires ScanCodes(Name(k1)) == Ok(c1) && ScanCodes(Name(k2)) == Ok(c2)
    ensures StepCodes([k1]) == Ok([c1])
    ensures StepCodes([k1, k2]) == Ok([c1, c2])
  {
    assert [k1][1..] == [] && [k1, k2][1..] == [k2] && [k2][1..] == [];
    assert [c1] + [] == [c1] && [c2] + [] == [c2] && [c1] + [c2] == [c1, c2];
  }

  /** A hotkey string of more than one character is split into steps. */
  lemma ParseLongName(s: string)
    requires |s| > 1
    ensures ParseHotkey(Name(s)) == StepsCodes(SplitSteps(s))
  {
  }

  lemma StepsCodesOfOne(p: string, codes: seq<seq<int>>)
    requires StepCodes(SplitKeys(p)) == Ok(codes)
    ensures StepsCodes([p]) == Ok([codes])
  {
    assert [p][1..] == [];
    assert [codes] + [] == [codes];
  }

  /** A string of more than one character without `,` is a single step. */
  lemma ParseOneStep(s: string, codes: seq<seq<int>>)
    requires |s| > 1 && ',' !in s && StepCodes(SplitKeys(s)) == Ok(codes)
    ensures ParseHotkey(Name(s)) == Ok([codes])
  {
    IndexOfIs(s, ',', |s|);
    assert SplitSteps(s) == [s];
    StepsCodesOfOne(s, codes);
    ParseLongName(s);
  }

  /** Two steps separated by `,` or `, `. */
  lemma SplitStepsOfTwo(p: string, sep: string, q: string)
    requires sep == "," || sep == ", "
    requires ',' !in p && ',' !in q && q != "" && !IsSpace(q[0])
    ensures SplitSteps(p + sep + q) == [p, q]
  {
    var s := p + sep + q;
    IndexOfIs(s, ',', |p|);
    assert s[..|p|] == p;
    assert s[|p| + |sep|..] == q;
    IndexOfIs(q, ',', |q|);
  }

  lemma StepsCodesOfTwo(p: string, q: string, c1: seq<seq<int>>, c2: seq<seq<int>>)
    requires StepCodes(SplitKeys(p)) == Ok(c1) && StepCodes(SplitKeys(q)) == Ok(c2)
    ensures StepsCodes([p, q]) == Ok([c1, c2])
  {
    StepsCodesOfOne(q, c2);
    assert [p, q][1..] == [q];
    assert [c1] + [c2] == [c1, c2];
  }

  /** A string split into two steps resolves each step in place. */
  lemma ParseTwoSteps(s: string, p: string, q: string, c1: seq<seq<int>>, c2: seq<seq<int>>)
    requires |s| > 1 && SplitSteps(s) == [p, q]
    requires StepCodes(SplitKeys(p)) == Ok(c1) && StepCodes(SplitKeys(q)) == Ok(c2)
    ensures ParseHotkey(Name(s)) == Ok([c1, c2])
  {
    ParseLongName(s);
    StepsCodesOfTwo(p, q, c1, c2);
  }

  /** Keys separated by `+` with one blank on either side. */
  lemma SplitKeysSpaced(k1: string, k2: string)
    requires PlainKeyName(k1) && PlainKeyName(k2)
    ensures SplitKeys(k1 + " + " + k2) == [k1, k2]
  {
    var s := k1 + " + " + k2;
    IndexOfIs(s, '+', |k1| + 1);
    assert s[..|k1|] == k1;
    assert s[|k1| + 3..] == k2;
    IndexOfIs(k2, '+', |k2|);
  }

  /** Two plain key names joined by `+`, with or without blanks around it,
      parse as one step of two keys. */
  lemma ParseTwoKeys(k1: string, k2: string, c1: seq<int>, c2: seq<int>)
    requires PlainKeyName(k1) && PlainKeyName(k2)
    requires ScanCodes(Name(k1)) == Ok(c1) && ScanCodes(Name(k2)) == Ok(c2)
    ensures ParseHotkey(Name(k1 + " + " + k2)) == Ok([[c1, c2]])
    ensures ParseHotkey(Name(k1 + "+" + k2)) == Ok([[c1, c2]])
  {
    StepCodesOfTwo(k1, k2, c1, c2);
    ParseTwoKeysSpaced(k1, k2, [c1, c2]);
    ParseTwoKeysTight(k1, k2, [c1, c2]);
  }

  lemma ParseTwoKeysSpaced(k1: string, k2: string, codes: seq<seq<int>>)
    requires PlainKeyName(k1) && PlainKeyName(k2) && StepCodes([k1, k2]) == Ok(codes)
    ensures ParseHotkey(Name(k1 + " + " + k2)) == Ok([codes])
  {
    SplitKeysSpaced(k1, k2);
    JoinHasNo([k1, k2], " + ", ',');
    assert Join([k1, k2], " + ") == k1 + " + " + k2;
    ParseOneStep(k1 + " + " + k2, codes);
  }

  lemma ParseTwoKeysTight(k1: string, k2: string, codes: seq<seq<int>>)
    requires PlainKeyName(k1) && PlainKeyName(k2) && StepCodes([k1, k2]) == Ok(codes)
    ensures ParseHotkey(Name(k1 + "+" + k2)) == Ok([codes])
  {
    SplitKeysJoin([k1, k2]);
    JoinHasNo([k1, k2], "+", ',');
    assert Join([k1, k2], "+") == k1 + "+" + k2;
    ParseOneStep(k1 + "+" + k2, codes);
  }

  /** Two plain steps separated by `,` or `, ` parse as two steps. */
  lemma ParseTwoPlainSteps(p: string, sep: string, q: string, c1: seq<seq<int>>, c2: seq<seq<int>>)
    requires sep == "," || sep == ", "
    requires ',' !in p && ',' !in q && q != "" && !IsSpace(q[0])
    requires StepCodes(SplitKeys(p)) == Ok(c1) && StepCodes(SplitKeys(q)) == Ok(c2)
    ensures ParseHotkey(Name(p + sep + q)) == Ok([c1, c2])
  {
    SplitStepsOfTwo(p, sep, q);
    ParseTwoSteps(p + sep + q, p, q, c1, c2);
  }

  /** A one-character hotkey is a single key, however it resolves. */
  lemma ParseOneChar(s: string, codes: seq<int>)
    requires |s| == 1 && ScanCodes(Name(s)) == Ok(codes)
    ensures ParseHotkey(Name(s)) == Ok([[codes]])
  {
  }

  /** Two plain key names joined by `+` as a step of a longer hotkey. */
  lemma PairStep(k1: string, k2: string, c1: seq<int>, c2: seq<int>)
    requires PlainKeyName(k1) && PlainKeyName(k2)
    requires ScanCodes(Name(k1)) == Ok(c1) && ScanCodes(Name(k2)) == Ok(c2)
    ensures StepCodes(SplitKeys(k1 + "+" + k2)) == Ok([c1, c2])
    ensures ',' !in k1 + "+" + k2 && !IsSpace((k1 + "+" + k2)[0])
  {
    StepCodesOfTwo(k1, k2, c1, c2);
    SplitKeysJoin([k1, k2]);
    JoinHasNo([k1, k2], "+", ',');
    assert Join([k1, k2], "+") == k1 + "+" + k2;
  }

  /** Three plain key names joined by `+` parse as one step of three keys. */
  lemma ParseThreeKeys(k1: string, k2: string, k3: string, c1: seq<int>, c2: seq<int>, c3: seq<int>)
    requires PlainKeyName(k1) && PlainKeyName(k2) && PlainKeyName(k3)
    requires ScanCodes(Name(k1)) == Ok(c1) && ScanCodes(Name(k2)) == Ok(c2) && ScanCodes(Name(k3)) == Ok(c3)
    ensures ParseHotkey(Name(k1 + "+" + k2 + "+" + k3)) == Ok([[c1, c2, c3]])
  {
    var keys := [k1, k2, k3];
    StepCodesOfThree(k1, k2, k3, c1, c2, c3);
    SplitKeysJoin(keys);
    JoinHasNo(keys, "+", ',');
    JoinOfThree(k1, k2, k3);
    ParseOneStep(k1 + "+" + k2 + "+" + k3, [c1, c2, c3]);
  }

  lemma StepCodesOfThree(k1: string, k2: string, k3: string, c1: seq<int>, c2: seq<int>, c3: seq<int>)
    requires ScanCodes(Name(k1)) == Ok(c1) && ScanCodes(Name(k2)) == Ok(c2) && ScanCodes(Name(k3)) == Ok(c3)
    ensures StepCodes([k1, k2, k3]) == Ok([c1, c2, c3])
  {
    StepCodesOfTwo(k2, k3, c2, c3);
    assert [k1, k2, k3][1..] == [k2, k3];
    assert [c1] + [c2, c3] == [c1, c2, c3];
  }

  lemma JoinOfThree(k1: string, k2: string, k3: string)
    ensures Join([k1, k2, k3], "+") == k1 + "+" + k2 + "+" + k3
  {
    assert [k1, k2, k3][1..] == [k2, k3];
    assert [k2, k3][1..] == [k3];
    assert Join([k2, k3], "+") == k2 + "+" + k3;
  }
}
