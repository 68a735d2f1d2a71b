/**
 A Go struct behind a jump table of four-byte selectors: a getter per field, and three setters that take
 the selector of a field and a word. After any history of calls a getter returns the word of the last
 value set for its own field.
 */
module FieldSetters {
  import opened Basics
  import opened Reverts
  import Abi = AbiNames

  type Selector = seq<Byte>

  datatype Kind = AddressKind | BoolKind | Uint32Kind | OtherKind

  datatype Value =
    | AddressValue(bytes: seq<Byte>)
    | BoolValue(b: bool)
    | Uint32Value(n: nat)
    | OtherValue(packed: seq<Byte>)

  function KindOf(v: Value): Kind {
    match v
    case AddressValue(_) => AddressKind
    case BoolValue(_) => BoolKind
    case Uint32Value(_) => Uint32Kind
    case OtherValue(_) => OtherKind
  }

  /** The ABI encoding of a field value. */
  function WordOf(v: Value): seq<Byte> {
    match v
    case AddressValue(bytes) => ZeroBytes(12) + bytes
    case BoolValue(b) => ZeroBytes(31) + [if b then 1 else 0]
    case Uint32Value(n) => ZeroBytes(28) + BigEndian(n, 4)
    case OtherValue(packed) => packed
  }

  /** What a setter of some kind makes of a word. */
  function FromWord(kind: Kind, word: seq<Byte>): (v: Value)
    requires |word| == WORD && kind != OtherKind
    ensures KindOf(v) == kind
  {
    match kind
    case AddressKind => AddressValue(word[12..])
    case BoolKind => BoolValue(word[31] == 1)
    case Uint32Kind => Uint32Value(Number(word[28..]))
  }

  /** A getter, a setter, or a method of the Go object. */
  datatype Entry = Getter(field: nat) | Setter(kind: Kind) | Method

  datatype Table = Table(methods: map<Selector, Entry>, settable: map<Selector, nat>)

  datatype Outcome = Returned(data: seq<Byte>) | Reverted | Panicked | Called

  /** The field and value that a call of a setter with `params` sets, if it does; kinds are those of the fields. */
  function SetBy(t: Table, kinds: seq<Kind>, kind: Kind, params: seq<Byte>): Option<(nat, Value)> {
    if |params| != 2 * WORD || params[4..WORD] != ZeroBytes(28) || params[..4] !in t.settable then None
    else
      var i := t.settable[params[..4]];
      if i >= |kinds| || kinds[i] != kind || kind == OtherKind then None
      else Some((i, FromWord(kind, params[WORD..])))
  }

  /** What a whole call sets. */
  function SetByCall(t: Table, kinds: seq<Kind>, input: seq<Byte>): Option<(nat, Value)> {
    if |input| < 4 || input[..4] !in t.methods || !t.methods[input[..4]].Setter? then None
    else SetBy(t, kinds, t.methods[input[..4]].kind, input[4..])
  }

  /** A call of a setter that names a field, whatever the kind of that field is. */
  predicate IsSet(t: Table, input: seq<Byte>) {
    && |input| == 4 + 2 * WORD && input[..4] in t.methods && t.methods[input[..4]].Setter?
    && input[4..][4..WORD] == ZeroBytes(28) && input[4..][..4] in t.settable
  }

  /** A call of a getter, with nothing after the selector. */
  predicate IsGet(t: Table, input: seq<Byte>, n: nat) {
    |input| == 4 && input in t.methods && t.methods[input].Getter? && t.methods[input].field < n
  }

  /** What a getter answers. */
  function Answer(t: Table, fields: seq<Value>, input: seq<Byte>): seq<Byte>
    requires IsGet(t, input, |fields|)
  {
    WordOf(fields[t.methods[input].field])
  }

  function Kinds(fields: seq<Value>): seq<Kind> {
    seq(|fields|, i requires 0 <= i < |fields| => KindOf(fields[i]))
  }

  function Updated(fields: seq<Value>, change: Option<(nat, Value)>): seq<Value> {
    if change.Some? && change.value.0 < |fields| then fields[change.value.0 := change.value.1] else fields
  }

  function After(t: Table, fields: seq<Value>, inputs: seq<seq<Byte>>): seq<Value>
    decreases |inputs|
  {
    if inputs == [] then fields
    else
      var before := After(t, fields, inputs[..|inputs| - 1]);
      Updated(before, SetByCall(t, Kinds(before), inputs[|inputs| - 1]))
  }

  // ----- the jump table -----

  const SET_ADDRESS := "set(bytes4,address)"
  const SET_BOOL := "set(bytes4,bool)"
  const SET_UINT32 := "set(bytes4,uint32)"

  function SetterSelectors(selectorOf: string -> Selector): set<Selector> {
    {selectorOf(SET_ADDRESS), selectorOf(SET_BOOL), selectorOf(SET_UINT32)}
  }

  function WithSetters(methods: map<Selector, Entry>, selectorOf: string -> Selector): map<Selector, Entry> {
    methods[selectorOf(SET_ADDRESS) := Setter(AddressKind)]
           [selectorOf(SET_BOOL) := Setter(BoolKind)]
           [selectorOf(SET_UINT32) := Setter(Uint32Kind)]
  }

  /** The signature that a script calls to set a field of some kind. */
  function Signature(kind: Kind): string
    requires kind != OtherKind
  {
    match kind
    case AddressKind => "set(bytes4,address)"
    case BoolKind => "set(bytes4,bool)"
    case Uint32Kind => "set(bytes4,uint32)"
  }

  /** Selectors have four bytes, and those of the three setters differ. */
  predicate DistinctSetters(selectorOf: string -> Selector) {
    var a, b, u := selectorOf("set(bytes4,address)"), selectorOf("set(bytes4,bool)"), selectorOf("set(bytes4,uint32)");
    |a| == |b| == |u| == 4 && a != b && b != u && u != a
  }

  /** Each signature calls the setter of its own kind. */
  lemma SetterOf(methods: map<Selector, Entry>, selectorOf: string -> Selector, kind: Kind)
    requires DistinctSetters(selectorOf) && kind != OtherKind
    ensures selectorOf(Signature(kind)) in WithSetters(methods, selectorOf)
    ensures WithSetters(methods, selectorOf)[selectorOf(Signature(kind))] == Setter(kind)
  {
  }

  function FieldSelectors(abiNames: seq<string>, selectorOf: string -> Selector): seq<Selector> {
    seq(|abiNames|, i requires 0 <= i < |abiNames| => selectorOf(abiNames[i] + "()"))
  }

  function WithGetters(methods: map<Selector, Entry>, sels: seq<Selector>): map<Selector, Entry> {
    if sels == [] then methods
    else WithGetters(methods, sels[..|sels| - 1])[sels[|sels| - 1] := Getter(|sels| - 1)]
  }

  /** The selectors differ from each other and from those taken. */
  ghost predicate Unconflicted(sels: seq<Selector>, taken: set<Selector>) {
    && (forall i :: 0 <= i < |sels| ==> sels[i] !in taken)
    && (forall i, k :: 0 <= i < k < |sels| ==> sels[i] != sels[k])
  }

  /** Exactly these selectors are settable, each standing for its own field. */
  ghost predicate Registered(settable: map<Selector, nat>, sels: seq<Selector>) {
    && (forall i :: 0 <= i < |sels| ==> sels[i] in settable && settable[sels[i]] == i)
    && (forall s :: s in settable ==> settable[s] < |sels| && sels[settable[s]] == s)
  }

  lemma {:induction false} GettersKeys(methods: map<Selector, Entry>, sels: seq<Selector>)
    ensures forall s :: s in WithGetters(methods, sels) <==> s in methods || s in sels
  {
    if sels != [] {
      GettersKeys(methods, sels[..|sels| - 1]);
      assert sels == sels[..|sels| - 1] + [sels[|sels| - 1]];
    }
  }

  lemma {:induction false} GetterOf(methods: map<Selector, Entry>, sels: seq<Selector>, i: nat)
    requires i < |sels| && forall a, b :: 0 <= a < b < |sels| ==> sels[a] != sels[b]
    ensures sels[i] in WithGetters(methods, sels) && WithGetters(methods, sels)[sels[i]] == Getter(i)
  {
    if i < |sels| - 1 {
      GetterOf(methods, sels[..|sels| - 1], i);
    }
  }

  predicate HasType(goType: Abi.GoType) {
    Abi.Erase(goType).Some?
  }

  /** Every field has an ABI type. */
  ghost predicate AllTyped(goTypes: seq<Abi.GoType>) {
    forall k :: 0 <= k < |goTypes| ==> HasType(goTypes[k])
  }

  lemma NextTyped(goTypes: seq<Abi.GoType>, i: nat)
    requires i < |goTypes| && AllTyped(goTypes[..i])
    ensures AllTyped(goTypes[..i + 1]) <==> HasType(goTypes[i])
    ensures !HasType(goTypes[i]) ==> !AllTyped(goTypes)
  {
    assert goTypes[..i + 1] == goTypes[..i] + [goTypes[i]];
  }

  lemma NextUnconflicted(sels: seq<Selector>, taken: set<Selector>, i: nat)
    requires i < |sels| && Unconflicted(sels[..i], taken)
    ensures Unconflicted(sels[..i + 1], taken) <==> sels[i] !in taken && sels[i] !in sels[..i]
    ensures !Unconflicted(sels[..i + 1], taken) ==> !Unconflicted(sels, taken)
  {
    assert forall k :: 0 <= k < i ==> sels[..i + 1][k] == sels[..i][k] == sels[k];
    assert sels[..i + 1][i] == sels[i];
    if sels[i] in sels[..i] {
      var k :| 0 <= k < i && sels[..i][k] == sels[i];
      assert sels[..i + 1][k] == sels[..i + 1][i] && sels[k] == sels[i];
    }
  }

  lemma NextRegistered(settable: map<Selector, nat>, sels: seq<Selector>, i: nat)
    requires i < |sels| && Registered(settable, sels[..i]) && sels[i] !in sels[..i]
    ensures Registered(settable[sels[i] := i], sels[..i + 1])
  {
    assert forall k :: 0 <= k < i ==> sels[..i + 1][k] == sels[..i][k];
    assert forall k :: 0 <= k < i ==> sels[..i][k] in sels[..i];
  }

  lemma NextGetter(methods: map<Selector, Entry>, sels: seq<Selector>, i: nat)
    requires i < |sels|
    ensures WithGetters(methods, sels[..i + 1]) == WithGetters(methods, sels[..i])[sels[i] := Getter(i)]
  {
    assert sels[..i + 1][..i] == sels[..i];
  }

  /** After setting up, a field has its getter exactly if its selector is not that of a setter. */
  lemma GetterSurvives(methods: map<Selector, Entry>, sels: seq<Selector>, selectorOf: string -> Selector, i: nat)
    requires i < |sels| && Unconflicted(sels, methods.Keys)
    ensures var table := WithSetters(WithGetters(methods, sels), selectorOf);
            sels[i] in table && (table[sels[i]] == Getter(i) <==> sels[i] !in SetterSelectors(selectorOf))
  {
    GetterOf(methods, sels, i);
  }

  /** The table that set-up leaves: these fields registered without conflict, and the setters put over them. */
  ghost predicate SetUp(t: Table, methods: map<Selector, Entry>, sels: seq<Selector>, selectorOf: string -> Selector) {
    && Unconflicted(sels, methods.Keys) && Registered(t.settable, sels)
    && t.methods == WithSetters(WithGetters(methods, sels), selectorOf)
  }

  /** Field `i` has a getter: its selector has four bytes and is not that of a setter. */
  predicate Readable(sels: seq<Selector>, selectorOf: string -> Selector, i: nat) {
    i < |sels| && |sels[i]| == 4 && sels[i] !in SetterSelectors(selectorOf)
  }

  // ----- the precompile -----

  class Precompile {
    const selectorOf: string -> Selector
    const fieldSetter: bool
    var abiMethods: map<Selector, Entry>
    var settable: map<Selector, nat>
    var fields: seq<Value>

    ghost function Abs(): Table
      reads this
    {
      Table(abiMethods, settable)
    }

    /** The methods of the Go object are in the table already. */
    constructor (selectorOf: string -> Selector, fieldSetter: bool, fields: seq<Value>, methods: set<Selector>)
      ensures this.selectorOf == selectorOf && this.fieldSetter == fieldSetter && this.fields == fields
      ensures abiMethods == (map s | s in methods :: Method) && settable == map[]
    {
      this.selectorOf, this.fieldSetter, this.fields := selectorOf, fieldSetter, fields;
      abiMethods, settable := map s | s in methods :: Method, map[];
    }

    /** Register the field numbered `i` under its ABI name; it fails if the selector is taken or no ABI type fits. */
    method SetupStructField(abiName: string, goType: Abi.GoType, i: nat) returns (ok: bool)
      modifies this`abiMethods, this`settable
      ensures ok <==> selectorOf(abiName + "()") !in old(abiMethods) && HasType(goType)
      ensures ok ==> abiMethods == old(abiMethods)[selectorOf(abiName + "()") := Getter(i)]
      ensures ok && fieldSetter ==> settable == old(settable)[selectorOf(abiName + "()") := i]
      ensures !ok ==> abiMethods == old(abiMethods)
      ensures !ok || !fieldSetter ==> settable == old(settable)
    {
      var byte4Sig := selectorOf(abiName + "()");
      if byte4Sig in abiMethods {
        return false;
      }
      Abi.ConverterNames(goType);
      if Abi.GoTypeToSolidityType(goType).None? {
        return false;
      }
      abiMethods := abiMethods[byte4Sig := Getter(i)];
      if fieldSetter {
        settable := settable[byte4Sig := i];
      }
      return true;
    }

    method SetupFieldSetter()
      modifies this`abiMethods
      ensures !fieldSetter ==> abiMethods == old(abiMethods)
      ensures fieldSetter ==> abiMethods == WithSetters(old(abiMethods), selectorOf)
    {
      if !fieldSetter {
        return;
      }
      abiMethods := abiMethods[selectorOf(SET_ADDRESS) := Setter(AddressKind)];
      abiMethods := abiMethods[selectorOf(SET_BOOL) := Setter(BoolKind)];
      abiMethods := abiMethods[selectorOf(SET_UINT32) := Setter(Uint32Kind)];
    }

    /**
     Register all fields, then the setters if there are to be any; it fails exactly if two selectors conflict or a
     field has no ABI type.
     */
    method Setup(abiNames: seq<string>, goTypes: seq<Abi.GoType>) returns (ok: bool)
      requires settable == map[] && |abiNames| == |goTypes| == |fields|
      modifies this`abiMethods, this`settable
      ensures ok <==>
                && Unconflicted(FieldSelectors(abiNames, selectorOf), old(abiMethods).Keys)
                && AllTyped(goTypes)
      ensures ok && fieldSetter ==> SetUp(Abs(), old(abiMethods), FieldSelectors(abiNames, selectorOf), selectorOf)
      ensures ok && !fieldSetter ==>
                settable == map[] && abiMethods == WithGetters(old(abiMethods), FieldSelectors(abiNames, selectorOf))
    {
      ghost var sels := FieldSelectors(abiNames, selectorOf);
      ghost var taken := abiMethods.Keys;
      for i := 0 to |abiNames|
        invariant Unconflicted(sels[..i], taken) && AllTyped(goTypes[..i])
        invariant if fieldSetter then Registered(settable, sels[..i]) else settable == map[]
        invariant abiMethods == WithGetters(old(abiMethods), sels[..i])
      {
        GettersKeys(old(abiMethods), sels[..i]);
        NextUnconflicted(sels, taken, i);
        NextTyped(goTypes, i);
        NextGetter(old(abiMethods), sels, i);
        ghost var before := settable;
        var registered := SetupStructField(abiNames[i], goTypes[i], i);
        if !registered {
          return false;
        }
        if fieldSetter {
          NextRegistered(before, sels, i);
        }
      }
      assert sels[..|sels|] == sels && goTypes[..|goTypes|] == goTypes;
      SetupFieldSetter();
      return true;
    }

    method Run(input: seq<Byte>) returns (out: Outcome)
      modifies this`fields
      ensures fields == Updated(old(fields), SetByCall(Abs(), Kinds(old(fields)), input))
      ensures SetByCall(Abs(), Kinds(old(fields)), input).Some? ==> out == Returned([])
      ensures IsGet(Abs(), input, |fields|) ==> out == Returned(Answer(Abs(), old(fields), input))
      ensures out.Returned? ==> IsGet(Abs(), input, |fields|) || SetByCall(Abs(), Kinds(old(fields)), input).Some?
      ensures out.Panicked? <==> IsSet(Abs(), input) && SetByCall(Abs(), Kinds(old(fields)), input).None?
      ensures out.Called? <==> |input| >= 4 && input[..4] in abiMethods && abiMethods[input[..4]].Method?
      ensures |input| < 4 || input[..4] !in abiMethods ==> out == Reverted
      ensures |input| > 4 && input[..4] in abiMethods && abiMethods[input[..4]].Getter? ==> out == Reverted
      ensures |input| >= 4 && input[..4] in abiMethods && abiMethods[input[..4]].Setter? ==>
                (|input| != 68 || input[4..8] !in settable || (exists k :: 8 <= k < 36 && input[k] != 0) ==>
                   out == Reverted)
    {
      if |input| < 4 {
        return Reverted;
      }
      var sig, params := input[..4], input[4..];
      assert |input| == 4 ==> sig == input;
      if sig !in abiMethods {
        return Reverted;
      }
      match abiMethods[sig]
      case Method => return Called;
      case Getter(i) =>
        if |params| != 0 || i >= |fields| {
          return Reverted;
        }
        return Returned(WordOf(fields[i]));
      case Setter(kind) =>
        assert |input| == 68 ==> params[..4] == input[4..8] && params[4..WORD] == input[8..36];
        if |params| != 2 * WORD || params[4..WORD] != ZeroBytes(28) || params[..4] !in settable {
          return Reverted;
        }
        var i := settable[params[..4]];
        if i >= |fields| || KindOf(fields[i]) != kind || kind == OtherKind {
          return Panicked;
        }
        fields := fields[i := FromWord(kind, params[WORD..])];
        return Returned([]);
    }

    /** A script sets field `i` to a word, through the signature for its kind, and reads it back. */
    method SetAndGet(ghost methods: map<Selector, Entry>, sels: seq<Selector>, i: nat, word: seq<Byte>)
      returns (done: Outcome, got: Outcome)
      requires SetUp(Abs(), methods, sels, selectorOf) && |sels| == |fields| && Readable(sels, selectorOf, i)
      requires DistinctSetters(selectorOf) && |word| == WORD && KindOf(fields[i]) != OtherKind
      modifies this`fields
      ensures done == Returned([]) && got == Returned(ReadsAs(KindOf(old(fields)[i]), word))
      ensures |fields| == |old(fields)| && forall k :: 0 <= k < |fields| && k != i ==> fields[k] == old(fields)[k]
    {
      var kind := KindOf(fields[i]);
      SetterOf(WithGetters(methods, sels), selectorOf, kind);
      SetCallSets(Abs(), sels, Kinds(fields), selectorOf(Signature(kind)), kind, i, word);
      GetterSurvives(methods, sels, selectorOf, i);
      StoredWord(kind, word);
      done := Run(SetCall(selectorOf(Signature(kind)), sels[i], word));
      got := Run(sels[i]);
    }
  }

  // ----- histories -----

  /** The last value that a history of calls set for field `i`, or the one it started with. */
  function LastSet(t: Table, fields: seq<Value>, inputs: seq<seq<Byte>>, i: nat): Value
    requires i < |fields|
    decreases |inputs|
  {
    if inputs == [] then fields[i]
    else
      var change := SetByCall(t, Kinds(fields), inputs[|inputs| - 1]);
      if change.Some? && change.value.0 == i then change.value.1
      else LastSet(t, fields, inputs[..|inputs| - 1], i)
  }

  lemma UpdatedKinds(t: Table, fields: seq<Value>, input: seq<Byte>)
    ensures Kinds(Updated(fields, SetByCall(t, Kinds(fields), input))) == Kinds(fields)
  {
  }

  /** No history of calls changes the kind of a field, and each field holds the last value set for it. */
  lemma {:induction false} LastSetHolds(t: Table, fields: seq<Value>, inputs: seq<seq<Byte>>, i: nat)
    requires i < |fields|
    ensures Kinds(After(t, fields, inputs)) == Kinds(fields) && |After(t, fields, inputs)| == |fields|
    ensures After(t, fields, inputs)[i] == LastSet(t, fields, inputs, i)
    decreases |inputs|
  {
    if inputs != [] {
      LastSetHolds(t, fields, inputs[..|inputs| - 1], i);
      var before := After(t, fields, inputs[..|inputs| - 1]);
      assert |Kinds(before)| == |before|;
      UpdatedKinds(t, before, inputs[|inputs| - 1]);
    }
  }

  /** The calldata that sets the field of selector `sel` to `word`. */
  function SetCall(setter: Selector, sel: Selector, word: seq<Byte>): seq<Byte> {
    setter + sel + ZeroBytes(28) + word
  }

  /** After any history of calls, the getter of a field is answered with the word of the last value set for it. */
  lemma GetsLastSet(t: Table, methods: map<Selector, Entry>, sels: seq<Selector>, selectorOf: string -> Selector,
                    fields: seq<Value>, inputs: seq<seq<Byte>>, i: nat)
    requires SetUp(t, methods, sels, selectorOf) && |sels| == |fields| && Readable(sels, selectorOf, i)
    ensures var after := After(t, fields, inputs);
            && IsGet(t, sels[i], |after|) && t.methods[sels[i]].field == i
            && Answer(t, after, sels[i]) == WordOf(LastSet(t, fields, inputs, i))
  {
    GetterSurvives(methods, sels, selectorOf, i);
    LastSetHolds(t, fields, inputs, i);
  }

  /**
   Set then get. In a table that was set up without conflicts, after any history of calls and then a call of
   `set` by the signature for a field's kind: the getter of that field is answered with the part of the word
   that the kind looks at, which is the word that was passed exactly if that is canonical; and every other
   getter is answered as before.
   */
  lemma SetThenGet(t: Table, methods: map<Selector, Entry>, sels: seq<Selector>, selectorOf: string -> Selector,
                   fields: seq<Value>, inputs: seq<seq<Byte>>, kind: Kind, i: nat, word: seq<Byte>, k: nat)
    requires SetUp(t, methods, sels, selectorOf) && |sels| == |fields| && DistinctSetters(selectorOf)
    requires Readable(sels, selectorOf, i) && Readable(sels, selectorOf, k)
    requires |word| == WORD && kind != OtherKind && KindOf(fields[i]) == kind
    ensures var call := SetCall(selectorOf(Signature(kind)), sels[i], word);
            var before, after := After(t, fields, inputs), After(t, fields, inputs + [call]);
            && IsGet(t, sels[i], |after|) && IsGet(t, sels[k], |after|) && IsGet(t, sels[k], |before|)
            && Answer(t, after, sels[i]) == ReadsAs(kind, word)
            && (Answer(t, after, sels[i]) == word <==> Canonical(kind, word))
            && (k != i ==> Answer(t, after, sels[k]) == Answer(t, before, sels[k]))
  {
    var all := inputs + [SetCall(selectorOf(Signature(kind)), sels[i], word)];
    assert all[..|all| - 1] == inputs;
    SetterOf(WithGetters(methods, sels), selectorOf, kind);
    SetCallSets(t, sels, Kinds(fields), selectorOf(Signature(kind)), kind, i, word);
    StoredWord(kind, word);
    GetsLastSet(t, methods, sels, selectorOf, fields, all, i);
    GetsLastSet(t, methods, sels, selectorOf, fields, all, k);
    GetsLastSet(t, methods, sels, selectorOf, fields, inputs, k);
    ReadBack(kind, word);
  }

  lemma SetCallSets(t: Table, sels: seq<Selector>, kinds: seq<Kind>, setter: Selector, kind: Kind, i: nat,
                    word: seq<Byte>)
    requires Registered(t.settable, sels) && |sels| == |kinds| && i < |kinds|
    requires |setter| == 4 && |sels[i]| == 4 && |word| == WORD
    requires setter in t.methods && t.methods[setter] == Setter(kind) && kind != OtherKind && kinds[i] == kind
    ensures SetByCall(t, kinds, SetCall(setter, sels[i], word)) == Some((i, FromWord(kind, word)))
  {
    var call := SetCall(setter, sels[i], word);
    var params := call[4..];
    assert call[..4] == setter;
    assert params == sels[i] + ZeroBytes(28) + word;
    assert params[..4] == sels[i];
    assert params[4..WORD] == ZeroBytes(28);
    assert params[WORD..] == word;
  }

  /** A word that encodes a value of the kind: nothing in the bytes that the setter does not look at. */
  predicate Canonical(kind: Kind, word: seq<Byte>)
    requires |word| == WORD
  {
    match kind
    case AddressKind => word[..12] == ZeroBytes(12)
    case BoolKind => word[..31] == ZeroBytes(31) && (word[31] == 0 || word[31] == 1)
    case Uint32Kind => word[..28] == ZeroBytes(28)
    case OtherKind => false
  }

  lemma {:induction false} BigEndianOfNumber(bs: seq<Byte>)
    ensures BigEndian(Number(bs), |bs|) == bs
  {
    if bs != [] {
      var init, last := bs[..|bs| - 1], bs[|bs| - 1];
      BigEndianOfNumber(init);
      LowByte(Number(init), last);
      assert bs == init + [last];
    }
  }

  lemma LowByte(high: nat, low: Byte)
    ensures (256 * high + low) / 256 == high && (256 * high + low) % 256 == low
  {
  }

  /**
   What a getter answers after a set: of an address the last 20 bytes, of a bool whether the last byte is one,
   of a uint32 the last four bytes, and zeros in front.
   */
  function ReadsAs(kind: Kind, word: seq<Byte>): seq<Byte>
    requires |word| == WORD && kind != OtherKind
  {
    match kind
    case AddressKind => ZeroBytes(12) + word[12..]
    case BoolKind => ZeroBytes(31) + [if word[31] == 1 then 1 else 0]
    case Uint32Kind => ZeroBytes(28) + word[28..]
  }

  lemma StoredWord(kind: Kind, word: seq<Byte>)
    requires |word| == WORD && kind != OtherKind
    ensures WordOf(FromWord(kind, word)) == ReadsAs(kind, word)
  {
    BigEndianOfNumber(word[28..]);
  }

  /** What is read back is the word that was set exactly if that word is canonical; the setters check neither. */
  lemma ReadBack(kind: Kind, word: seq<Byte>)
    requires |word| == WORD && kind != OtherKind
    ensures WordOf(FromWord(kind, word)) == word <==> Canonical(kind, word)
  {
    match kind
    case AddressKind =>
      assert word == word[..12] + word[12..];
      assert (ZeroBytes(12) + word[12..])[..12] == ZeroBytes(12);
    case BoolKind =>
      assert word == word[..31] + [word[31]];
      var back := WordOf(FromWord(kind, word));
      assert back[..31] == ZeroBytes(31) && (back[31] == 0 || back[31] == 1);
    case Uint32Kind =>
      BigEndianOfNumber(word[28..]);
      assert word == word[..28] + word[28..];
      assert (ZeroBytes(28) + word[28..])[..28] == ZeroBytes(28);
  }
}
