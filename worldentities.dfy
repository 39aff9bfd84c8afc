/**
 * AddWorldEntities of src/worldentities.ts: before a world is built, every
 * pocket-dimension container prefab whose saved entity list is empty gets
 * one placeholder position, so that the save goes through.  The save's
 * entity table is shared with the caller and patched in place.
 *
 * Reading the entry of a prefab that the table lacks makes
 * `Object.keys(undefined)` throw; the model reports that as `ok == false`,
 * with the entries patched before the throw kept.
 */
module WorldEntities {
  datatype Position = Position(x: real, z: real)

  type EntityTable = map<string, seq<Position>>

  /** The prefabs of POCKETDIMENSIONCONTAINER_DEFS, in order. */
  const PocketContainerPrefabs: seq<string> := ["shadow_container"]

  /** The one entry written for a prefab with no saved entities. */
  const Placeholder: seq<Position> := [Position(0.0, 0.0)]

  /** One step of the loop, for a prefab the table has. */
  function PatchOne(t: EntityTable, prefab: string): (r: EntityTable)
    requires prefab in t
  {
    if |t[prefab]| == 0 then t[prefab := Placeholder] else t
  }

  /**
   * The table after the loop over `defs`, and whether it ran to the end:
   * the loop stops, leaving the table as it was, at the first prefab the
   * table lacks.
   */
  function Patched(t: EntityTable, defs: seq<string>): (r: (EntityTable, bool))
    ensures r.0.Keys == t.Keys
  {
    if defs == [] then (t, true)
    else
      var (u, ok) := Patched(t, defs[..|defs| - 1]);
      var p := defs[|defs| - 1];
      if !ok || p !in u then (u, false) else (PatchOne(u, p), true)
  }

  /** The loop finishes exactly when every prefab it visits has an entry. */
  lemma {:induction false} PatchedOk(t: EntityTable, defs: seq<string>)
    ensures Patched(t, defs).1 <==> forall i :: 0 <= i < |defs| ==> defs[i] in t
  {
    if defs != [] {
      var n := |defs| - 1;
      PatchedOk(t, defs[..n]);
      assert forall i :: 0 <= i < n ==> defs[..n][i] == defs[i];
    }
  }

  /**
   * When the loop finishes, each visited prefab with an empty list holds
   * the placeholder, each with a non-empty list keeps it, and every other
   * key is untouched.
   */
  lemma {:induction false} PatchedEntries(t: EntityTable, defs: seq<string>, k: string)
    requires Patched(t, defs).1 && k in t
    ensures Patched(t, defs).0[k] ==
      if k in defs && |t[k]| == 0 then Placeholder else t[k]
  {
    if defs != [] {
      var n := |defs| - 1;
      PatchedEntries(t, defs[..n], k);
      assert k in defs <==> k in defs[..n] || k == defs[n] by {
        assert defs == defs[..n] + [defs[n]];
      }
    }
  }

  /** Patching twice is patching once. */
  lemma {:induction false} PatchedIdempotent(t: EntityTable, defs: seq<string>)
    requires Patched(t, defs).1
    ensures Patched(Patched(t, defs).0, defs) == Patched(t, defs)
  {
    var u := Patched(t, defs).0;
    PatchedOk(t, defs);
    PatchedOk(u, defs);
    var v := Patched(u, defs).0;
    forall k | k in v
      ensures v[k] == u[k]
    {
      PatchedEntries(t, defs, k);
      PatchedEntries(u, defs, k);
    }
    assert v.Keys == u.Keys;
    assert v == u;
  }

  /** Once the loop has thrown, the later prefabs change nothing. */
  lemma {:induction false} PatchedStopped(t: EntityTable, defs: seq<string>, i: nat)
    requires i <= |defs| && !Patched(t, defs[..i]).1
    ensures Patched(t, defs) == Patched(t, defs[..i])
    decreases |defs| - i
  {
    if i < |defs| {
      assert defs[..i + 1][..i] == defs[..i];
      PatchedStopped(t, defs, i + 1);
    } else {
      assert defs[..i] == defs;
    }
  }

  /** A save's entity table, shared with the caller. */
  class SaveData {
    var ents: EntityTable

    constructor (ents: EntityTable)
      ensures this.ents == ents
    {
      this.ents := ents;
    }
  }

  /** AddWorldEntities: patch the container prefabs' entries in place, in definition order. */
  method AddWorldEntities(savedata: SaveData) returns (ok: bool)
    modifies savedata
    ensures (savedata.ents, ok) == Patched(old(savedata.ents), PocketContainerPrefabs)
  {
    var defs := PocketContainerPrefabs;
    for i := 0 to |defs|
      invariant (savedata.ents, true) == Patched(old(savedata.ents), defs[..i])
    {
      assert defs[..i + 1][..i] == defs[..i];
      var prefab := defs[i];
      if prefab !in savedata.ents {
        PatchedStopped(old(savedata.ents), defs, i + 1);
        return false;
      }
      if |savedata.ents[prefab]| == 0 {
        savedata.ents := savedata.ents[prefab := Placeholder];
      }
    }
    assert defs[..|defs|] == defs;
    ok := true;
  }
}
