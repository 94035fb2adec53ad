/** Giving every receiver, parameter and result of a target function a usable name. */
module Naming {
  import opened GoAst
  import Decimal

  const UNNAMED_RET_VAL := "_unnamedRetVal"
  const IGNORED_RET_VAL := "_ignoredRetVal"
  const IGNORED_PARAM := "_ignoredParam"

  /** A name that can be referred to. */
  predicate Given(x: string) { x != "" && x != "_" }

  /** The positions of a field list that hold, or need, one name each; "" for an unnamed field. */
  function Slots(fields: seq<Field>): seq<string> {
    if fields == [] then [] else SlotsOf(fields[0]) + Slots(fields[1..])
  }

  function SlotsOf(f: Field): (s: seq<string>)
    ensures s != []
  {
    if f == [] then [""] else f
  }

  predicate WellFormed(fields: seq<Field>) {
    forall f, x :: f in fields && x in f ==> x != ""
  }

  function SlotSet(slots: seq<string>): set<string> { set x | x in slots && Given(x) }

  ghost predicate NoClash(slots: seq<string>) {
    forall i, j :: 0 <= i < j < |slots| && Given(slots[i]) ==> slots[i] != slots[j]
  }

  predicate AllGiven(slots: seq<string>) { forall x :: x in slots ==> Given(x) }

  /** `after` names exactly the positions `before` leaves open, with names outside `taken` that
      differ from each other. */
  ghost predicate Filled(before: seq<string>, after: seq<string>, taken: set<string>) {
    && |after| == |before|
    && (forall i :: 0 <= i < |before| && Given(before[i]) ==> after[i] == before[i])
    && (forall i :: 0 <= i < |before| && !Given(before[i]) ==> Given(after[i]) && after[i] !in taken)
    && (forall i, j :: 0 <= i < j < |before| && !Given(before[i]) && !Given(before[j]) ==> after[i] != after[j])
  }

  lemma {:induction false} SlotsConcat(a: seq<Field>, b: seq<Field>)
    ensures Slots(a + b) == Slots(a) + Slots(b)
    decreases |a|
  {
    if a == [] {
      assert a + b == b;
    } else {
      assert (a + b)[1..] == a[1..] + b;
      SlotsConcat(a[1..], b);
    }
  }

  lemma {:induction false} SlotsPush(a: seq<Field>, f: Field)
    ensures Slots(a + [f]) == Slots(a) + SlotsOf(f)
  {
    SlotsConcat(a, [f]);
    assert [f][1..] == [];
  }

  /** Two disjoint fillings make one. */
  lemma {:induction false} FilledConcat(b1: seq<string>, a1: seq<string>, t1: set<string>, b2: seq<string>,
      a2: seq<string>, t2: set<string>)
    requires Filled(b1, a1, t1) && Filled(b2, a2, t2) && t1 <= t2 && SlotSet(a1) <= t2
    ensures Filled(b1 + b2, a1 + a2, t1)
  {
    var b, a, n := b1 + b2, a1 + a2, |b1|;
    forall i, j | 0 <= i < j < |b| && !Given(b[i]) && !Given(b[j]) ensures a[i] != a[j] {
      if i < n && j >= n {
        assert a[i] == a1[i] && Given(a1[i]) && a1[i] in SlotSet(a1);
        assert !Given(b2[j - n]) && a[j] == a2[j - n];
      }
    }
  }

  // ---------------------------------------------------------------- the name generator

  function Synthetic(prefix: string, hash: string, idx: nat): (s: string)
    ensures Given(s)
  {
    prefix + "_" + hash + "_" + Decimal.Itoa(idx)
  }

  lemma {:induction false} SyntheticInjective(prefix: string, hash: string, i: nat, j: nat)
    requires Synthetic(prefix, hash, i) == Synthetic(prefix, hash, j)
    ensures i == j
  {
    var head := prefix + "_" + hash + "_";
    assert Synthetic(prefix, hash, i)[|head|..] == Decimal.Itoa(i);
    assert Synthetic(prefix, hash, j)[|head|..] == Decimal.Itoa(j);
    Decimal.Injective(i, j);
  }

  function NamesOf(f: FuncDecl): set<string>
    reads f`recv, f`params, f`results
  {
    SlotSet(Slots(f.recv)) + SlotSet(Slots(f.params)) + SlotSet(Slots(f.results))
  }

  class Namer {
    const hash: string
    var taken: set<string>
    var idx: nat

    constructor (f: FuncDecl, hash: string)
      ensures this.hash == hash && taken == NamesOf(f)
    {
      this.hash, taken, idx := hash, NamesOf(f), 0;
    }

    /** The loop ends because each rejected candidate uses up one of finitely many taken names. */
    method Next(prefix: string) returns (name: string)
      modifies this
      ensures name !in old(taken) && taken == old(taken) + {name} && Given(name)
      ensures exists k :: old(idx) <= k < idx && name == Synthetic(prefix, hash, k)
    {
      ghost var left := taken;
      while true
        invariant left <= taken == old(taken) && old(idx) <= idx
        invariant forall k: nat :: idx <= k && Synthetic(prefix, hash, k) in taken ==>
                  Synthetic(prefix, hash, k) in left
        decreases |left|
      {
        name := Synthetic(prefix, hash, idx);
        idx := idx + 1;
        if name !in taken {
          taken := taken + {name};
          return;
        }
        forall k: nat | idx <= k ensures Synthetic(prefix, hash, k) != name {
          if Synthetic(prefix, hash, k) == name { SyntheticInjective(prefix, hash, k, idx - 1); }
        }
        assert |left - {name}| < |left|;
        left := left - {name};
      }
    }
  }

  /** The first i names of a field are chosen: `g` is the field so far, `taken` the names in use. */
  ghost predicate NamedUpTo(f: Field, i: nat, g: Field, names: seq<string>, taken0: set<string>, taken: set<string>) {
    && i <= |f| && |names| == i && g == names + f[i..]
    && Filled(f[..i], names, taken0) && taken == taken0 + SlotSet(names)
  }

  lemma {:induction false} NameOneMore(f: Field, i: nat, g: Field, names: seq<string>, name: string,
      taken0: set<string>, taken: set<string>)
    requires NamedUpTo(f, i, g, names, taken0, taken) && i < |f|
    requires Given(name) && (Given(f[i]) ==> name == f[i] && name in taken) && (!Given(f[i]) ==> name !in taken)
    ensures NamedUpTo(f, i + 1, g[i := name], names + [name], taken0, taken + {name})
  {
    FilledConcat(f[..i], names, taken0, [f[i]], [name], taken);
    FirstOnes(f, i);
    SlotSetPush(names, name);
    assert g[i := name] == names + [name] + f[i + 1..];
    assert taken0 + SlotSet(names) + {name} == taken0 + (SlotSet(names) + {name});
  }

  lemma {:induction false} SlotSetPush(names: seq<string>, name: string)
    requires Given(name)
    ensures SlotSet(names + [name]) == SlotSet(names) + {name}
  {
    forall x | x in SlotSet(names) + {name} ensures x in SlotSet(names + [name]) {
      if x in names {
        assert x in names + [name];
      } else {
        assert (names + [name])[|names|] == x;
      }
    }
  }

  /** Name one field and report its names. */
  method NameField(next: Namer, f: Field, unnamed: string, blank: string) returns (g: Field, names: seq<string>)
    requires (forall x :: x in f ==> x != "") && SlotSet(f) <= next.taken
    modifies next
    ensures g == names && Filled(SlotsOf(f), names, old(next.taken))
    ensures next.taken == old(next.taken) + SlotSet(names)
  {
    if f == [] {
      var name := next.Next(unnamed);
      g, names := [name], [name];
      assert SlotSet([name]) == {name};
    } else {
      g, names := NameAll(next, f, blank);
      assert f[..|f|] == f;
    }
  }

  method NameAll(next: Namer, f: Field, blank: string) returns (g: Field, names: seq<string>)
    requires (forall x :: x in f ==> x != "") && SlotSet(f) <= next.taken
    modifies next
    ensures NamedUpTo(f, |f|, g, names, old(next.taken), next.taken)
  {
    g, names := f, [];
    ghost var taken0 := next.taken;
    for i := 0 to |f|
      invariant taken0 <= next.taken && NamedUpTo(f, i, g, names, taken0, next.taken)
    {
      var name := f[i];
      assert name in f;
      ghost var taken := next.taken;
      if name == "_" {
        name := next.Next(blank);
      } else {
        assert name in SlotSet(f) && taken + {name} == taken;
      }
      NameOneMore(f, i, g, names, name, taken0, taken);
      g, names := g[i := name], names + [name];
    }
  }

  // ---------------------------------------------------------------- collecting names

  /** `named` are the first fields, each with as many names as it needs. */
  ghost predicate Fits(fields: seq<Field>, named: seq<Field>, names: seq<string>) {
    && |named| <= |fields| && WellFormed(named) && Slots(named) == names
    && forall j :: 0 <= j < |named| ==> |named[j]| == |SlotsOf(fields[j])|
  }

  lemma {:induction false} FitsPush(fields: seq<Field>, named: seq<Field>, names: seq<string>, g: Field)
    requires Fits(fields, named, names) && |named| < |fields| && |g| == |SlotsOf(fields[|named|])| && AllGiven(g)
    ensures Fits(fields, named + [g], names + g)
  {
    SlotsPush(named, g);
  }

  /** The first i fields of a list are named; `taken` are the names in use. */
  ghost predicate FieldsUpTo(fields: seq<Field>, i: nat, named: seq<Field>, names: seq<string>, taken0: set<string>,
      taken: set<string>) {
    && i <= |fields| && |named| == i && Fits(fields, named, names)
    && Filled(Slots(fields[..i]), names, taken0) && taken == taken0 + SlotSet(names)
  }

  lemma {:induction false} FieldDone(
      fields: seq<Field>, i: nat, named: seq<Field>, names: seq<string>, g: Field, taken0: set<string>,
      taken: set<string>)
    requires FieldsUpTo(fields, i, named, names, taken0, taken) && i < |fields|
    requires Filled(SlotsOf(fields[i]), g, taken)
    ensures FieldsUpTo(fields, i + 1, named + [g], names + g, taken0, taken + SlotSet(g))
  {
    FilledGiven(SlotsOf(fields[i]), g, taken);
    FitsPush(fields, named, names, g);
    FilledMore(fields, i, names, g, taken0, taken);
  }

  lemma {:induction false} FilledMore(fields: seq<Field>, i: nat, names: seq<string>, g: Field, taken0: set<string>,
      taken: set<string>)
    requires i < |fields| && Filled(Slots(fields[..i]), names, taken0) && taken == taken0 + SlotSet(names)
    requires Filled(SlotsOf(fields[i]), g, taken)
    ensures Filled(Slots(fields[..i + 1]), names + g, taken0) && taken + SlotSet(g) == taken0 + SlotSet(names + g)
  {
    FilledConcat(Slots(fields[..i]), names, taken0, SlotsOf(fields[i]), g, taken);
    SlotsPush(fields[..i], fields[i]);
    FirstOnes(fields, i);
    SlotSetConcat(names, g);
    assert taken0 + SlotSet(names) + SlotSet(g) == taken0 + (SlotSet(names) + SlotSet(g));
  }

  lemma {:induction false} FirstOnes<T>(s: seq<T>, i: nat)
    requires i < |s|
    ensures s[..i + 1] == s[..i] + [s[i]]
  {
  }

  lemma {:induction false} SlotSetConcat(a: seq<string>, b: seq<string>)
    ensures SlotSet(a + b) == SlotSet(a) + SlotSet(b)
  {
  }

  /** Name the fields of one list from left to right. */
  method NameFields(next: Namer, fields: seq<Field>, unnamed: string, blank: string)
      returns (named: seq<Field>, names: seq<string>)
    requires WellFormed(fields) && SlotSet(Slots(fields)) <= next.taken
    modifies next
    ensures FieldsUpTo(fields, |fields|, named, names, old(next.taken), next.taken)
    ensures Filled(Slots(fields), names, old(next.taken))
  {
    named, names := [], [];
    ghost var taken0 := next.taken;
    for i := 0 to |fields|
      invariant taken0 <= next.taken && FieldsUpTo(fields, i, named, names, taken0, next.taken)
    {
      ghost var taken := next.taken;
      SlotsAt(fields, i);
      var g, ns := NameField(next, fields[i], unnamed, blank);
      FieldDone(fields, i, named, names, g, taken0, taken);
      named, names := named + [g], names + ns;
    }
    assert fields[..|fields|] == fields;
  }

  lemma {:induction false} SplitAt<T>(s: seq<T>, i: nat)
    requires i < |s|
    ensures s == s[..i] + [s[i]] + s[i + 1..]
  {
  }

  lemma {:induction false} SlotsAt(fields: seq<Field>, i: nat)
    requires i < |fields| && WellFormed(fields)
    ensures SlotSet(fields[i]) <= SlotSet(Slots(fields))
    ensures forall x :: x in fields[i] ==> x != ""
  {
    SplitAt(fields, i);
    SlotsPush(fields[..i], fields[i]);
    SlotsConcat(fields[..i] + [fields[i]], fields[i + 1..]);
    forall x | x in SlotSet(fields[i]) ensures x in SlotSet(Slots(fields)) {
      assert x in SlotsOf(fields[i]);
    }
  }

  lemma {:induction false} FilledGiven(before: seq<string>, after: seq<string>, taken: set<string>)
    requires Filled(before, after, taken)
    ensures AllGiven(after)
  {
    forall x | x in after ensures Given(x) {
      var i :| 0 <= i < |after| && after[i] == x;
      assert Given(before[i]) || !Given(before[i]);
    }
  }

  /** Names already given stay, and the result has no clashes when the given ones had none. */
  lemma {:induction false} FilledNoClash(before: seq<string>, after: seq<string>, taken: set<string>)
    requires Filled(before, after, taken) && SlotSet(before) <= taken && NoClash(before)
    ensures NoClash(after)
  {
    forall i, j | 0 <= i < j < |after| && Given(after[i]) ensures after[i] != after[j] {
      if Given(before[i]) && !Given(before[j]) { assert before[i] in SlotSet(before); }
      if !Given(before[i]) && Given(before[j]) { assert before[j] in SlotSet(before); }
    }
  }

  lemma {:induction false} FilledNothing(slots: seq<string>, after: seq<string>, taken: set<string>)
    requires Filled(slots, after, taken) && AllGiven(slots)
    ensures after == slots
  {
    forall i | 0 <= i < |slots| ensures after[i] == slots[i] { assert slots[i] in slots; }
  }

  /** Fields whose slots are all given are determined by their shape and their slots. */
  lemma {:induction false} SameFields(a: seq<Field>, b: seq<Field>)
    requires |a| == |b| && Slots(a) == Slots(b) && AllGiven(Slots(a))
    requires forall i :: 0 <= i < |a| ==> |SlotsOf(a[i])| == |SlotsOf(b[i])|
    ensures a == b
    decreases |a|
  {
    if a != [] {
      assert SlotsOf(a[0]) == Slots(a)[..|SlotsOf(a[0])|] == Slots(b)[..|SlotsOf(b[0])|] == SlotsOf(b[0]);
      assert Slots(a[1..]) == Slots(a)[|SlotsOf(a[0])|..] == Slots(b[1..]);
      assert Given(SlotsOf(a[0])[0]);
      SameFields(a[1..], b[1..]);
    }
  }

  ghost predicate ValidDecl(f: FuncDecl)
    reads f`recv, f`params, f`results
  {
    && |f.recv| <= 1 && (f.recv != [] ==> |f.recv[0]| <= 1)
    && WellFormed(f.recv) && WellFormed(f.params) && WellFormed(f.results)
  }

  /** All names the target's signature declares, in order. */
  function Signature(f: FuncDecl): seq<string>
    reads f`recv, f`params, f`results
  {
    Slots(f.recv) + Slots(f.params) + Slots(f.results)
  }

  method CollectReturnValues(f: FuncDecl, hash: string) returns (retVals: seq<string>)
    requires ValidDecl(f)
    modifies f`results
    ensures ValidDecl(f) && retVals == Slots(f.results)
    ensures Filled(old(Slots(f.results)), retVals, old(NamesOf(f)))
    ensures AllGiven(old(Slots(f.results))) ==> f.results == old(f.results)
  {
    var next := new Namer(f, hash);
    var named;
    named, retVals := NameFields(next, f.results, UNNAMED_RET_VAL, IGNORED_RET_VAL);
    FilledGiven(Slots(f.results), retVals, NamesOf(f));
    if AllGiven(Slots(f.results)) {
      FilledNothing(Slots(f.results), retVals, NamesOf(f));
      NamedShape(f.results, named);
    }
    f.results := named;
  }

  lemma {:induction false} NamedShape(fields: seq<Field>, named: seq<Field>)
    requires |named| == |fields| && Slots(named) == Slots(fields) && AllGiven(Slots(fields))
    requires forall i :: 0 <= i < |fields| ==> |named[i]| == |SlotsOf(fields[i])|
    ensures named == fields
  {
    SameFields(fields, named);
  }

  method CollectArguments(f: FuncDecl, hash: string) returns (args: seq<string>)
    requires ValidDecl(f)
    modifies f`recv, f`params
    ensures ValidDecl(f) && args == Slots(f.recv) + Slots(f.params)
    ensures Filled(old(Slots(f.recv) + Slots(f.params)), args, old(NamesOf(f)))
    ensures AllGiven(old(Slots(f.recv) + Slots(f.params))) ==> f.recv == old(f.recv) && f.params == old(f.params)
  {
    var next := new Namer(f, hash);
    ghost var taken := next.taken;
    var recv, recvNames := NameFields(next, f.recv, IGNORED_PARAM, IGNORED_PARAM);
    ghost var taken1 := next.taken;
    var params, names := NameFields(next, f.params, IGNORED_PARAM, IGNORED_PARAM);
    args := recvNames + names;
    FilledConcat(Slots(f.recv), recvNames, taken, Slots(f.params), names, taken1);
    if AllGiven(Slots(f.recv) + Slots(f.params)) {
      assert AllGiven(Slots(f.recv)) && AllGiven(Slots(f.params));
      FilledNothing(Slots(f.recv), recvNames, taken);
      FilledNothing(Slots(f.params), names, taken1);
      NamedShape(f.recv, recv);
      NamedShape(f.params, params);
    }
    f.recv, f.params := recv, params;
  }

  /** Both collectors in the order the instrumenter uses: afterwards every receiver, parameter and
      result has a name of its own, given names are where they were, and the two lists are the
      names in order of declaration. */
  method NameSignature(f: FuncDecl, hash: string) returns (args: seq<string>, retVals: seq<string>)
    requires ValidDecl(f) && NoClash(Signature(f))
    modifies f`recv, f`params, f`results
    ensures ValidDecl(f) && args + retVals == Signature(f) && args == Slots(f.recv) + Slots(f.params)
            && retVals == Slots(f.results)
    ensures AllGiven(Signature(f)) && NoClash(Signature(f))
    ensures |Signature(f)| == |old(Signature(f))|
    ensures forall i :: 0 <= i < |Signature(f)| && Given(old(Signature(f))[i]) ==>
            Signature(f)[i] == old(Signature(f))[i]
    ensures AllGiven(old(Signature(f))) ==>
            f.recv == old(f.recv) && f.params == old(f.params) && f.results == old(f.results)
  {
    ghost var ins, outs := Slots(f.recv) + Slots(f.params), Slots(f.results);
    ghost var names0 := NamesOf(f);
    retVals := CollectReturnValues(f, hash);
    ghost var names1 := NamesOf(f);
    SlotSetConcat(Slots(f.recv), Slots(f.params));
    args := CollectArguments(f, hash);
    SignatureFilled(ins, outs, args, retVals, names0, names1);
  }

  lemma {:induction false} NoClashParts(a: seq<string>, b: seq<string>)
    requires NoClash(a + b)
    ensures NoClash(a) && NoClash(b)
  {
    var ab := a + b;
    forall i, j | 0 <= i < j < |a| && Given(a[i]) ensures a[i] != a[j] { assert ab[i] == a[i] && ab[j] == a[j]; }
    forall i, j | 0 <= i < j < |b| && Given(b[i]) ensures b[i] != b[j] {
      assert ab[|a| + i] == b[i] && ab[|a| + j] == b[j];
    }
  }

  lemma {:induction false} SignatureFilled(ins: seq<string>, outs: seq<string>, args: seq<string>, rets: seq<string>,
      names0: set<string>, names1: set<string>)
    requires NoClash(ins + outs) && SlotSet(ins) + SlotSet(outs) == names0
    requires Filled(outs, rets, names0) && Filled(ins, args, names1) && names1 == SlotSet(ins) + SlotSet(rets)
    ensures AllGiven(args + rets) && NoClash(args + rets) && |args + rets| == |ins + outs|
    ensures forall i :: 0 <= i < |ins + outs| && Given((ins + outs)[i]) ==> (args + rets)[i] == (ins + outs)[i]
  {
    FilledGiven(outs, rets, names0);
    FilledGiven(ins, args, names1);
    NoClashParts(ins, outs);
    var a, b, n := ins + outs, args + rets, |ins|;
    forall i, j | 0 <= i < j < |b| ensures b[i] != b[j] {
      if j < n {
        FilledNoClash(ins, args, names1);
      } else if n <= i {
        FilledNoClash(outs, rets, names0);
        assert rets[i - n] != rets[j - n];
      } else {
        var x, y := ins[i], outs[j - n];
        assert a[i] == x && a[j] == y && b[i] == args[i] && b[j] == rets[j - n];
        if Given(x) { assert x in SlotSet(ins); } else { assert rets[j - n] in SlotSet(rets); }
      }
    }
  }
}
