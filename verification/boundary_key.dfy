/** The signature under which a fusion's hints are stored and looked up, and when two boundaries share it. */
module BoundaryKey {
  const SEPARATOR: char := '\U{001E}'

  /** Order of strings by their first differing character; a proper prefix comes first. */
  predicate Less(a: string, b: string) {
    if b == "" then false
    else if a == "" then true
    else if a[0] != b[0] then a[0] < b[0]
    else Less(a[1..], b[1..])
  }

  /** a and b agree up to place k, where a ends or has the smaller character. */
  ghost predicate DifferAt(a: string, b: string, k: nat) {
    k <= |a| && k < |b| && a[..k] == b[..k] && (k == |a| || a[k] < b[k])
  }

  lemma SameStart(a: string, b: string, k: nat)
    requires 0 < k <= |a| && k <= |b| && a[..k] == b[..k]
    ensures a[0] == b[0]
  {
    assert a[..k][0] == b[..k][0];
  }

  lemma {:induction false} LessIsLexicographic(a: string, b: string)
    ensures Less(a, b) <==> exists k: nat :: DifferAt(a, b, k)
  {
    if a != "" && b != "" && a[0] == b[0] {
      LessIsLexicographic(a[1..], b[1..]);
      if k: nat :| DifferAt(a[1..], b[1..], k) {
        assert a[..k + 1] == [a[0]] + a[1..][..k] && b[..k + 1] == [b[0]] + b[1..][..k];
        assert DifferAt(a, b, k + 1);
      }
      if k: nat :| DifferAt(a, b, k) {
        assert k > 0;
        assert a[1..][..k - 1] == a[..k][1..] && b[1..][..k - 1] == b[..k][1..];
        assert DifferAt(a[1..], b[1..], k - 1);
      }
    } else {
      assert Less(a, b) ==> DifferAt(a, b, 0);
      if k: nat :| DifferAt(a, b, k) {
        if a != "" && k > 0 {
          SameStart(a, b, k);
        }
      }
    }
  }

  lemma {:induction false} LessAsymmetric(a: string, b: string)
    ensures !(Less(a, b) && Less(b, a)) && !Less(a, a)
  {
    if a != "" && b != "" {
      LessAsymmetric(a[1..], b[1..]);
    } else if a != "" {
      LessAsymmetric(a[1..], b);
    }
  }

  lemma {:induction false} LessTotal(a: string, b: string)
    ensures Less(a, b) || a == b || Less(b, a)
  {
    if a != "" && b != "" && a[0] == b[0] {
      LessTotal(a[1..], b[1..]);
      assert a == [a[0]] + a[1..] && b == [b[0]] + b[1..];
    }
  }

  lemma {:induction false} LessTransitive(a: string, b: string, c: string)
    requires Less(a, b) && Less(b, c)
    ensures Less(a, c)
  {
    if a != "" && a[0] == b[0] == c[0] {
      LessTransitive(a[1..], b[1..], c[1..]);
    }
  }

  ghost predicate Increasing(names: seq<string>) {
    forall i, j :: 0 <= i < j < |names| ==> Less(names[i], names[j])
  }

  function Elements(names: seq<string>): set<string> {
    set n | n in names
  }

  /** A set of names has one increasing listing. */
  lemma {:induction false} IncreasingIsUnique(a: seq<string>, b: seq<string>)
    requires Increasing(a) && Increasing(b) && Elements(a) == Elements(b)
    ensures a == b
  {
    assert a != [] ==> a[0] in Elements(a);
    assert b != [] ==> b[0] in Elements(b);
    if a != [] && b != [] {
      assert a[0] in Elements(b) && b[0] in Elements(a);
      var i :| 0 <= i < |a| && a[i] == b[0];
      var j :| 0 <= j < |b| && b[j] == a[0];
      LessAsymmetric(a[0], b[0]);
      assert a[0] == b[0];
      TailElements(a);
      TailElements(b);
      IncreasingIsUnique(a[1..], b[1..]);
    }
  }

  lemma TailElements(a: seq<string>)
    requires Increasing(a) && a != []
    ensures Increasing(a[1..]) && Elements(a[1..]) == Elements(a) - {a[0]}
  {
    assert a == [a[0]] + a[1..];
    forall n | n in a[1..]
      ensures n != a[0]
    {
      LessAsymmetric(a[0], n);
    }
  }

  /** Put a name in its place in an increasing listing, once. */
  method InsertName(names: seq<string>, name: string) returns (names': seq<string>)
    requires Increasing(names)
    ensures Increasing(names') && Elements(names') == Elements(names) + {name}
  {
    var i := 0;
    while i < |names| && Less(names[i], name)
      invariant 0 <= i <= |names|
      invariant forall k :: 0 <= k < i ==> Less(names[k], name)
    {
      i := i + 1;
    }
    if i < |names| && names[i] == name {
      assert name in Elements(names);
      return names;
    }
    if i < |names| {
      LessTotal(names[i], name);
      forall k | i < k < |names|
        ensures Less(name, names[k])
      {
        LessTransitive(name, names[i], names[k]);
      }
    }
    names' := names[..i] + [name] + names[i..];
    assert names == names[..i] + names[i..];
  }

  function Lines(names: seq<string>): string {
    if names == [] then "" else names[0] + [SEPARATOR] + Lines(names[1..])
  }

  lemma {:induction false} LinesAppend(a: seq<string>, b: seq<string>)
    ensures Lines(a + b) == Lines(a) + Lines(b)
  {
    if a == [] {
      assert a + b == b;
    } else {
      LinesAppend(a[1..], b);
      assert (a + b)[1..] == a[1..] + b;
    }
  }

  /** Drop the empty names, sort, drop repeats, and end each name with the separator. */
  method Normalize(names: seq<string>) returns (key: string, ghost listing: seq<string>)
    ensures Increasing(listing) && Elements(listing) == Elements(names) - {""} && key == Lines(listing)
  {
    var sorted: seq<string> := [];
    var i := 0;
    while i < |names|
      invariant 0 <= i <= |names|
      invariant Increasing(sorted) && Elements(sorted) == Elements(names[..i]) - {""}
    {
      assert names[..i + 1] == names[..i] + [names[i]];
      assert Elements(names[..i + 1]) == Elements(names[..i]) + {names[i]};
      if names[i] != "" {
        sorted := InsertName(sorted, names[i]);
      }
      i := i + 1;
    }
    assert names[..i] == names;
    listing := sorted;
    key := "";
    i := 0;
    while i < |sorted|
      invariant 0 <= i <= |sorted|
      invariant key == Lines(sorted[..i])
    {
      assert sorted[..i + 1] == sorted[..i] + [sorted[i]];
      LinesAppend(sorted[..i], [sorted[i]]);
      assert Lines([sorted[i]]) == sorted[i] + [SEPARATOR];
      key := key + sorted[i];
      key := key + [SEPARATOR];
      i := i + 1;
    }
    assert sorted[..i] == sorted;
  }

  ghost function Key(inputs: seq<string>, outputs: seq<string>): string {
    Lines(inputs) + "|" + Lines(outputs)
  }

  method FusionBoundaryKey(inputNames: seq<string>, outputNames: seq<string>)
    returns (key: string, ghost inputs: seq<string>, ghost outputs: seq<string>)
    ensures Increasing(inputs) && Elements(inputs) == Elements(inputNames) - {""}
    ensures Increasing(outputs) && Elements(outputs) == Elements(outputNames) - {""}
    ensures key == Key(inputs, outputs)
  {
    var first, second;
    first, inputs := Normalize(inputNames);
    second, outputs := Normalize(outputNames);
    key := first + "|" + second;
  }

  ghost predicate SeparatorFree(names: seq<string>) {
    forall n :: n in names ==> SEPARATOR !in n
  }

  lemma FirstSeparator(a: string, s: string, k: nat)
    requires SEPARATOR !in a
    requires k <= |a| + |s| && (a + [SEPARATOR] + s)[k] == SEPARATOR
    requires forall i :: 0 <= i < k ==> (a + [SEPARATOR] + s)[i] != SEPARATOR
    ensures k == |a|
  {
    assert (a + [SEPARATOR] + s)[|a|] == SEPARATOR;
  }

  lemma FirstLine(a: string, s: string, b: string, t: string)
    requires SEPARATOR !in a && SEPARATOR !in b
    requires a + [SEPARATOR] + s == b + [SEPARATOR] + t
    ensures a == b && s == t
  {
    var whole, other := a + [SEPARATOR] + s, b + [SEPARATOR] + t;
    assert other[|b|] == SEPARATOR && forall i :: 0 <= i < |b| ==> other[i] == b[i];
    FirstSeparator(a, s, |b|);
    assert a == whole[..|a|] && b == other[..|b|];
    assert s == whole[|a| + 1..] && t == other[|b| + 1..];
  }

  /** Separator-ended lines followed by an unfinished one can be read back. */
  lemma {:induction false} LinesInjective(a: seq<string>, s: string, b: seq<string>, t: string)
    requires SeparatorFree(a) && SeparatorFree(b) && SEPARATOR !in s && SEPARATOR !in t
    requires Lines(a) + s == Lines(b) + t
    ensures a == b && s == t
  {
    assert b != [] ==> (Lines(b) + t)[|b[0]|] == SEPARATOR;
    assert a != [] ==> (Lines(a) + s)[|a[0]|] == SEPARATOR;
    assert a == [] ==> Lines(a) + s == s;
    assert b == [] ==> Lines(b) + t == t;
    if a != [] && b != [] {
      assert Lines(a) + s == a[0] + [SEPARATOR] + (Lines(a[1..]) + s);
      assert Lines(b) + t == b[0] + [SEPARATOR] + (Lines(b[1..]) + t);
      FirstLine(a[0], Lines(a[1..]) + s, b[0], Lines(b[1..]) + t);
      LinesInjective(a[1..], s, b[1..], t);
      assert a == [a[0]] + a[1..] && b == [b[0]] + b[1..];
    }
  }

  /**
   * The second boundary takes outputs of the first for inputs: the bar in front of the first output
   * is read as part of an input name, and the bar of a later output as the one between the halves.
   */
  ghost predicate Shifted(inputs: seq<string>, outputs: seq<string>, inputs': seq<string>, outputs': seq<string>) {
    var k := |inputs'| - |inputs|;
    && 0 < k < |outputs| && outputs' != []
    && inputs' == inputs + ["|" + outputs[0]] + outputs[1..k]
    && outputs[k] == "|" + outputs'[0] && outputs[k + 1..] == outputs'[1..]
  }

  function Marked(inputs: seq<string>, outputs: seq<string>): seq<string>
    requires outputs != []
  {
    inputs + ["|" + outputs[0]] + outputs[1..]
  }

  lemma KeyIsMarkedLines(inputs: seq<string>, outputs: seq<string>)
    requires outputs != []
    ensures Key(inputs, outputs) == Lines(Marked(inputs, outputs))
    ensures SeparatorFree(inputs) && SeparatorFree(outputs) ==> SeparatorFree(Marked(inputs, outputs))
  {
    var m := "|" + outputs[0];
    LinesAppend(inputs + [m], outputs[1..]);
    LinesAppend(inputs, [m]);
    assert Lines([m]) == m + [SEPARATOR];
    assert SEPARATOR !in outputs[0] ==> SEPARATOR !in m;
  }

  lemma MarkedEqualsMeansShifted(inputs: seq<string>, outputs: seq<string>, inputs': seq<string>, outputs': seq<string>)
    requires outputs != [] && outputs' != [] && |inputs| < |inputs'|
    ensures Marked(inputs, outputs) == Marked(inputs', outputs') <==> Shifted(inputs, outputs, inputs', outputs')
  {
    var k := |inputs'| - |inputs|;
    var m, m' := Marked(inputs, outputs), Marked(inputs', outputs');
    if m == m' {
      assert inputs' == m'[..|inputs'|] == m[..|inputs'|];
      assert m[..|inputs'|] == inputs + ["|" + outputs[0]] + outputs[1..k];
      assert m[|inputs'|] == outputs[k] && m'[|inputs'|] == "|" + outputs'[0];
      assert m[|inputs'| + 1..] == outputs[k + 1..] && m'[|inputs'| + 1..] == outputs'[1..];
    }
    if Shifted(inputs, outputs, inputs', outputs') {
      assert outputs[1..] == outputs[1..k] + [outputs[k]] + outputs[k + 1..];
      assert m == inputs' + ["|" + outputs'[0]] + outputs'[1..];
    }
  }

  /** Exactly when two boundaries share a key, for separator-free names. */
  lemma KeysAgree(inputs: seq<string>, outputs: seq<string>, inputs': seq<string>, outputs': seq<string>)
    requires SeparatorFree(inputs) && SeparatorFree(outputs) && SeparatorFree(inputs') && SeparatorFree(outputs')
    ensures Key(inputs, outputs) == Key(inputs', outputs') <==>
      || (inputs == inputs' && outputs == outputs')
      || Shifted(inputs, outputs, inputs', outputs') || Shifted(inputs', outputs', inputs, outputs)
  {
    if outputs == [] && outputs' == [] {
      if Key(inputs, []) == Key(inputs', []) {
        assert Key(inputs, []) == Lines(inputs) + "|" && Key(inputs', []) == Lines(inputs') + "|";
        LinesInjective(inputs, "|", inputs', "|");
      }
    } else if outputs != [] && outputs' != [] {
      KeyIsMarkedLines(inputs, outputs);
      KeyIsMarkedLines(inputs', outputs');
      var m, m' := Marked(inputs, outputs), Marked(inputs', outputs');
      if Lines(m) == Lines(m') {
        assert Lines(m) + "" == Lines(m') + "";
        LinesInjective(m, "", m', "");
      }
      if |inputs| < |inputs'| {
        MarkedEqualsMeansShifted(inputs, outputs, inputs', outputs');
      } else if |inputs'| < |inputs| {
        MarkedEqualsMeansShifted(inputs', outputs', inputs, outputs);
      } else {
        SameLengthMarked(inputs, outputs, inputs', outputs');
      }
    } else if outputs' != [] {
      MixedKeysDiffer(inputs, inputs', outputs');
    } else {
      MixedKeysDiffer(inputs', inputs, outputs);
    }
  }

  lemma SameLengthMarked(inputs: seq<string>, outputs: seq<string>, inputs': seq<string>, outputs': seq<string>)
    requires outputs != [] && outputs' != [] && |inputs| == |inputs'|
    ensures Marked(inputs, outputs) == Marked(inputs', outputs') <==> inputs == inputs' && outputs == outputs'
  {
    var m, m' := Marked(inputs, outputs), Marked(inputs', outputs');
    if m == m' {
      assert inputs == m[..|inputs|] == inputs';
      assert "|" + outputs[0] == m[|inputs|] == "|" + outputs'[0];
      assert ("|" + outputs[0])[1..] == outputs[0] && ("|" + outputs'[0])[1..] == outputs'[0];
      assert outputs[1..] == m[|inputs| + 1..] == outputs'[1..];
      assert outputs == [outputs[0]] + outputs[1..] && outputs' == [outputs'[0]] + outputs'[1..];
    }
  }

  lemma MixedKeysDiffer(inputs: seq<string>, inputs': seq<string>, outputs': seq<string>)
    requires SeparatorFree(inputs) && SeparatorFree(inputs') && SeparatorFree(outputs') && outputs' != []
    ensures Key(inputs, []) != Key(inputs', outputs')
  {
    KeyIsMarkedLines(inputs', outputs');
    assert Key(inputs, []) == Lines(inputs) + "|";
    if Key(inputs, []) == Key(inputs', outputs') {
      assert Lines(Marked(inputs', outputs')) + "" == Lines(Marked(inputs', outputs'));
      LinesInjective(inputs, "|", Marked(inputs', outputs'), "");
    }
  }

  lemma ShiftedHasBar(inputs: seq<string>, outputs: seq<string>, inputs': seq<string>, outputs': seq<string>)
    ensures Shifted(inputs, outputs, inputs', outputs') ==> exists n :: n in inputs' && "|" <= n
  {
    if Shifted(inputs, outputs, inputs', outputs') {
      var n := "|" + outputs[0];
      assert n in inputs' && "|" <= n;
    }
  }

  /** With no input name starting with a bar, the key identifies the two name sets. */
  lemma KeyIdentifiesBoundary(inputs: seq<string>, outputs: seq<string>, inputs': seq<string>, outputs': seq<string>)
    requires SeparatorFree(inputs) && SeparatorFree(outputs) && SeparatorFree(inputs') && SeparatorFree(outputs')
    requires Increasing(inputs) && Increasing(outputs) && Increasing(inputs') && Increasing(outputs')
    requires forall n :: n in inputs || n in inputs' ==> !("|" <= n)
    ensures Key(inputs, outputs) == Key(inputs', outputs') <==>
      Elements(inputs) == Elements(inputs') && Elements(outputs) == Elements(outputs')
  {
    KeysAgree(inputs, outputs, inputs', outputs');
    ShiftedHasBar(inputs, outputs, inputs', outputs');
    ShiftedHasBar(inputs', outputs', inputs, outputs);
    if Elements(inputs) == Elements(inputs') && Elements(outputs) == Elements(outputs') {
      IncreasingIsUnique(inputs, inputs');
      IncreasingIsUnique(outputs, outputs');
    }
  }

  /** Two different boundaries over separator-free names with one key. */
  lemma BarCollision(inputs: seq<string>, outputs: seq<string>, inputs': seq<string>, outputs': seq<string>)
    requires inputs == ["0"] && outputs == ["a", "|b"] && inputs' == ["0", "|a"] && outputs' == ["b"]
    ensures Increasing(inputs) && Increasing(outputs) && Increasing(inputs') && Increasing(outputs')
    ensures SeparatorFree(inputs) && SeparatorFree(outputs) && SeparatorFree(inputs') && SeparatorFree(outputs')
    ensures Key(inputs, outputs) == Key(inputs', outputs')
    ensures Elements(inputs) != Elements(inputs') && Elements(outputs) != Elements(outputs')
  {
    assert Less("a", "|b") && Less("0", "|a");
    assert "|" + outputs[0] == "|a" && outputs[1..1] == [] && outputs[2..] == [];
    assert inputs' == inputs + ["|" + outputs[0]] + outputs[1..1];
    assert Shifted(inputs, outputs, inputs', outputs');
    KeysAgree(inputs, outputs, inputs', outputs');
    assert "|a" in Elements(inputs') && "a" in Elements(outputs);
  }
}
