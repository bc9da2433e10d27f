/** Parsing of the provider's screen-message invocations. */
module ScreenMessages {
  import opened Common
  import opened ParsedJson

  /** The five sparse fields of a message; None is a field the provider did not give. */
  datatype Fields = Fields(
    text: Option<string>, line: Option<int>, modality: Option<int>, background: Option<string>, font: Option<string>)

  const NO_FIELDS := Fields(None, None, None, None, None)

  datatype Patch = Patch(id: string, ordinal: nat, fields: Fields)

  datatype Update =
    | Snapshot(patches: seq<Patch>, complete: bool)
    | Upsert(patch: Patch)
    | Delete(id: string)
    | Reset
    | Invalid
    | Unknown

  // ---------------------------------------------------------------- fields

  predicate IsBlank(c: char) { c == ' ' || c == '\t' || c == '\n' || c == '\r' }

  predicate AllBlank(s: string) { forall i :: 0 <= i < |s| ==> IsBlank(s[i]) }

  function MessageId(j: Json): Option<string> {
    if j.Text? && !AllBlank(j.s) then Some(j.s) else None
  }

  /** An absent or null field is not an error and gives nothing. */
  function TextField(j: Json): Option<string> { if j.Text? then Some(j.s) else None }
  function IntField(j: Json): Option<int> { if j.Int? then Some(j.i) else None }
  predicate TextOk(j: Json) { j.Null? || j.Text? }
  predicate IntOk(j: Json) { j.Null? || j.Int? }

  /** `_parse_patch`; `ok` when it reports no error. */
  datatype Parsed = Parsed(patch: Option<Patch>, ok: bool)

  function ParsePatch(j: Json, ordinal: nat): Parsed {
    if !j.Object? || MessageId(Field(j.fields, "Id")).None? then Parsed(None, false)
    else
      var m := j.fields;
      var t, l, mo, bc, fc := Field(m, "t"), Field(m, "l"), Field(m, "m"), Field(m, "bc"), Field(m, "fc");
      Parsed(Some(Patch(MessageId(Field(m, "Id")).value, ordinal, Fields(TextField(t), IntField(l), IntField(mo), TextField(bc), TextField(fc)))),
             TextOk(t) && IntOk(l) && IntOk(mo) && TextOk(bc) && TextOk(fc))
  }

  // ---------------------------------------------------------------- snapshots, last item first

  /** The valid items from index `n - 1` down to 0. */
  function PatchesDown(items: seq<Json>, n: nat): seq<Patch>
    requires n <= |items|
  {
    if n == 0 then []
    else
      var p := ParsePatch(items[n - 1], n - 1);
      (if p.patch.Some? then [p.patch.value] else []) + PatchesDown(items, n - 1)
  }

  predicate AllOk(items: seq<Json>) {
    forall i :: 0 <= i < |items| ==> ParsePatch(items[i], i).ok
  }

  method ParseSnapshot(items: seq<Json>) returns (update: Update)
    ensures update == Snapshot(PatchesDown(items, |items|), AllOk(items))
  {
    var patches: seq<Patch> := [];
    var complete := true;
    var n := |items|;
    while n > 0
      invariant 0 <= n <= |items|
      invariant patches + PatchesDown(items, n) == PatchesDown(items, |items|)
      invariant complete <==> forall i :: n <= i < |items| ==> ParsePatch(items[i], i).ok
    {
      var p := ParsePatch(items[n - 1], n - 1);
      if p.patch.Some? {
        patches := patches + [p.patch.value];
      }
      complete := complete && p.ok;
      n := n - 1;
    }
    update := Snapshot(patches, complete);
  }

  ghost predicate Descending(patches: seq<Patch>) {
    forall j, k :: 0 <= j < k < |patches| ==> patches[j].ordinal > patches[k].ordinal
  }

  /** Every parsed patch is the item at its ordinal, and the patches are in application order:
      last item first. */
  lemma {:induction false} SnapshotOrder(items: seq<Json>, n: nat)
    requires n <= |items|
    ensures forall p :: p in PatchesDown(items, n) ==> p.ordinal < n && ParsePatch(items[p.ordinal], p.ordinal).patch == Some(p)
    ensures Descending(PatchesDown(items, n))
  {
    if n > 0 {
      SnapshotOrder(items, n - 1);
      var rest, p := PatchesDown(items, n - 1), ParsePatch(items[n - 1], n - 1);
      assert forall k :: 0 <= k < |rest| ==> rest[k] in rest;
      if p.patch.Some? {
        assert PatchesDown(items, n) == [p.patch.value] + rest;
      } else {
        assert PatchesDown(items, n) == rest;
      }
    }
  }

  /** No well-formed item is left out. */
  lemma {:induction false} SnapshotHasEvery(items: seq<Json>, n: nat, i: nat)
    requires i < n <= |items| && ParsePatch(items[i], i).patch.Some?
    ensures ParsePatch(items[i], i).patch.value in PatchesDown(items, n)
  {
    if i < n - 1 {
      SnapshotHasEvery(items, n - 1, i);
    }
  }

  // ---------------------------------------------------------------- handles

  function Payload(args: seq<Json>): Json { if |args| == 1 then args[0] else Array(args) }

  function Parse(handle: string, args: seq<Json>): Update {
    var payload := Payload(args);
    if handle == "m_i" then
      if payload.Null? then Snapshot([], true)
      else if payload.Array? then Snapshot(PatchesDown(payload.items, |payload.items|), AllOk(payload.items))
      else Invalid
    else if handle == "m_a" then Reset
    else if handle == "m_c" then
      var p := ParsePatch(payload, 0).patch;
      if p.Some? then Upsert(p.value) else Invalid
    else if handle == "m_d" then
      var id := MessageId(payload);
      if id.Some? then Delete(id.value) else Invalid
    else Unknown
  }
}
