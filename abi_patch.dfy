/** The part of an `abi_def` the plugin looks at, and the one-off rewrite it applies to the
    system account's ABI before building a serializer from it
    (elasticsearch_plugin.cpp, `get_abi_serializer`). */
module AbiPatch {
  import opened Wrappers
  import opened ChainTypes
  import opened SeqSearch

  datatype FieldDef = FieldDef(name: string, typ: string)

  datatype StructDef = StructDef(name: string, base: string, fields: seq<FieldDef>)

  /** An ABI definition; only its version and structs are modelled, every other part is
      carried through unchanged by the patch. */
  datatype AbiDef = AbiDef(version: string, structs: seq<StructDef>)

  predicate IsSetabiStruct(s: StructDef) {
    s.name == "setabi"
  }

  predicate IsAbiField(f: FieldDef) {
    f.name == "abi"
  }

  /** `i` is the index of the first struct named "setabi". */
  ghost predicate IsFirstSetabi(abi: AbiDef, i: int) {
    && 0 <= i < |abi.structs|
    && IsSetabiStruct(abi.structs[i])
    && forall k :: 0 <= k < i ==> !IsSetabiStruct(abi.structs[k])
  }

  /** `j` is the index of the first field of `s` named "abi". */
  ghost predicate IsFirstAbiField(s: StructDef, j: int) {
    && 0 <= j < |s.fields|
    && IsAbiField(s.fields[j])
    && forall k :: 0 <= k < j ==> !IsAbiField(s.fields[k])
  }

  /** The patch applies exactly when the account is the system account, it has a struct
      named "setabi", and the first such struct's first field named "abi" has type "bytes". */
  ghost predicate PatchApplies(account: Name, abi: AbiDef) {
    && account == SystemAccount
    && exists i, j :: IsFirstSetabi(abi, i) && IsFirstAbiField(abi.structs[i], j)
                      && abi.structs[i].fields[j].typ == "bytes"
  }

  /** `after` is `before` with exactly field `j` of struct `i` retyped to "abi_def". */
  ghost predicate RetypedAt(before: AbiDef, after: AbiDef, i: int, j: int)
    requires 0 <= i < |before.structs| && 0 <= j < |before.structs[i].fields|
  {
    && after.version == before.version
    && |after.structs| == |before.structs|
    && (forall k :: 0 <= k < |before.structs| && k != i ==> after.structs[k] == before.structs[k])
    && after.structs[i].name == before.structs[i].name
    && after.structs[i].base == before.structs[i].base
    && |after.structs[i].fields| == |before.structs[i].fields|
    && (forall m :: 0 <= m < |before.structs[i].fields| && m != j ==>
          after.structs[i].fields[m] == before.structs[i].fields[m])
    && after.structs[i].fields[j] == FieldDef("abi", "abi_def")
  }

  /** The ABI a serializer is built from, and whether the specialised unpacker for
      "abi_def" was registered on that serializer. */
  datatype Patched = Patched(abi: AbiDef, abiDefUnpacker: bool)

  /** Redefines the system account's `setabi.abi` from "bytes" to "abi_def" and registers the
      matching unpacker; every other ABI passes through untouched. */
  function PatchSetabi(account: Name, abi: AbiDef): (r: Patched)
    ensures r.abiDefUnpacker <==> PatchApplies(account, abi)
    ensures !r.abiDefUnpacker ==> r.abi == abi
    ensures r.abiDefUnpacker ==> exists i, j :: IsFirstSetabi(abi, i) && IsFirstAbiField(abi.structs[i], j)
                                               && RetypedAt(abi, r.abi, i, j)
  {
    if account != SystemAccount then Patched(abi, false)
    else match FindIf(abi.structs, IsSetabiStruct)
      case None => Patched(abi, false)
      case Some(i) =>
        var s := abi.structs[i];
        match FindIf(s.fields, IsAbiField)
        case None => Patched(abi, false)
        case Some(j) =>
          if s.fields[j].typ == "bytes" then
            var s' := s.(fields := s.fields[j := s.fields[j].(typ := "abi_def")]);
            var r := Patched(abi.(structs := abi.structs[i := s']), true);
            assert IsFirstSetabi(abi, i) && IsFirstAbiField(abi.structs[i], j);
            assert RetypedAt(abi, r.abi, i, j);
            r
          else
            Patched(abi, false)
  }

  /** Building a second serializer from an already patched ABI changes nothing more:
      the field now has type "abi_def", so the patch no longer applies. */
  lemma PatchSetabiIdempotent(account: Name, abi: AbiDef)
    ensures PatchSetabi(account, PatchSetabi(account, abi).abi).abi == PatchSetabi(account, abi).abi
    ensures !PatchSetabi(account, PatchSetabi(account, abi).abi).abiDefUnpacker
  {
    var p := PatchSetabi(account, abi);
    if p.abiDefUnpacker {
      var i, j :| IsFirstSetabi(abi, i) && IsFirstAbiField(abi.structs[i], j) && RetypedAt(abi, p.abi, i, j);
      assert IsFirstSetabi(p.abi, i);
      assert IsFirstAbiField(p.abi.structs[i], j);
      // the first "setabi" struct and its first "abi" field are found at the same places
      forall i', j' | IsFirstSetabi(p.abi, i') && IsFirstAbiField(p.abi.structs[i'], j')
        ensures p.abi.structs[i'].fields[j'].typ != "bytes"
      {
        assert i' == i;
        assert j' == j;
      }
    }
  }
}
