/**
 * The Prefab and Asset records of src/prefabs.ts.  A prefab is named by
 * the last component of the path it is declared with, and its dependency
 * list is extended with the skins registered for that name.  The skin
 * table PREFAB_SKINS lives in a module that is not part of this model; it
 * is a parameter here.  The dependency list is the caller's array, which
 * the constructor extends in place; the prefab's `fn` and an asset's
 * `param` are host values, named by a reference.
 */
module Prefabs {
  import opened Wrappers

  /** `s.lastIndexOf(c)`: the index of the last `c` in `s`, or -1. */
  function LastIndexOf(s: string, c: char): (i: int)
    ensures -1 <= i < |s|
  {
    if s == [] then -1
    else if s[|s| - 1] == c then |s| - 1
    else LastIndexOf(s[..|s| - 1], c)
  }

  /** lastIndexOf is -1 exactly when `c` is absent, and otherwise the last position holding `c`. */
  lemma {:induction false} LastIndexOfSpec(s: string, c: char)
    ensures var i := LastIndexOf(s, c);
      && (i == -1 <==> c !in s)
      && (i >= 0 ==> s[i] == c && c !in s[i + 1..])
  {
    if s != [] && s[|s| - 1] != c {
      var t := s[..|s| - 1];
      LastIndexOfSpec(t, c);
      var i := LastIndexOf(t, c);
      assert s == t + [s[|s| - 1]];
      assert i >= 0 ==> s[i + 1..] == t[i + 1..] + [s[|s| - 1]];
    }
  }

  /** `name.substring(name.lastIndexOf("/") + 1)`: the path after its last "/". */
  function BaseName(path: string): (r: string)
    ensures |r| <= |path|
  {
    var i := LastIndexOf(path, '/');
    path[i + 1..]
  }

  /**
   * The name has no "/"; it is the whole path when the path has none, and
   * otherwise the part after the path's last "/".
   */
  lemma BaseNameSpec(path: string)
    ensures var r := BaseName(path);
      && '/' !in r
      && ('/' !in path ==> r == path)
      && ('/' in path ==> |r| < |path| && r == path[|path| - |r|..] && path[|path| - |r| - 1] == '/')
  {
    LastIndexOfSpec(path, '/');
  }

  /** A name is its own base name, so naming a prefab twice changes nothing. */
  lemma BaseNameIdempotent(path: string)
    ensures BaseName(BaseName(path)) == BaseName(path)
  {
    BaseNameSpec(path);
    BaseNameSpec(BaseName(path));
  }

  /** The last "/" of `dir + "/" + name` is the one between them when `name` has none. */
  lemma {:induction false} LastSlashOfJoin(dir: string, name: string)
    requires '/' !in name
    ensures LastIndexOf(dir + "/" + name, '/') == |dir|
    decreases |name|
  {
    if name != [] {
      var n := |name| - 1;
      var p := dir + "/" + name;
      assert p[..|p| - 1] == dir + "/" + name[..n];
      assert p[|p| - 1] == name[n];
      LastSlashOfJoin(dir, name[..n]);
    }
  }

  /** Declaring a prefab as `dir/name` names it `name`. */
  lemma BaseNameOfJoin(dir: string, name: string)
    requires '/' !in name
    ensures BaseName(dir + "/" + name) == name
  {
    LastSlashOfJoin(dir, name);
    assert (dir + "/" + name)[|dir| + 1..] == name;
  }

  /** A JavaScript string array, shared by reference. */
  class StringArray {
    var items: seq<string>

    constructor (items: seq<string>)
      ensures this.items == items
    {
      this.items := items;
    }

    /** `push` of each string in turn. */
    method PushAll(extra: seq<string>)
      modifies this
      ensures items == old(items) + extra
    {
      for i := 0 to |extra|
        invariant items == old(items) + extra[..i]
      {
        assert extra[..i + 1] == extra[..i] + [extra[i]];
        items := items + [extra[i]];
      }
      assert extra[..|extra|] == extra;
    }
  }

  class Asset {
    var kind: string
    var file: string
    var param: nat

    /** Asset stores its three arguments as given. */
    constructor (kind: string, file: string, param: nat)
      ensures this.kind == kind && this.file == file && this.param == param
    {
      this.kind := kind;
      this.file := file;
      this.param := param;
    }
  }

  /** The skins registered for a prefab name; none when the table has no entry. */
  function SkinsOf(skins: map<string, seq<string>>, name: string): seq<string>
  {
    if name in skins then skins[name] else []
  }

  class Prefab {
    var name: string
    var desc: string
    var fn: nat
    var assets: seq<Asset>
    var deps: StringArray
    var forcePathSearch: bool

    /**
     * `new Prefab(name, fn, assets = [], deps = [], force_path_search = false)`:
     * the base name of the path, an empty description, and the given
     * dependency array (a fresh empty one when none is given) extended in
     * place with the name's skins, in order.
     */
    constructor (path: string, fn: nat, assets: seq<Asset>, given: Option<StringArray>, forcePathSearch: bool,
                 skins: map<string, seq<string>>)
      modifies if given.Some? then {given.value} else {}
      ensures name == BaseName(path) && desc == "" && this.fn == fn && this.assets == assets
      ensures this.forcePathSearch == forcePathSearch
      ensures given.Some? ==> deps == given.value
      ensures given.None? ==> fresh(deps)
      ensures deps.items == (if given.Some? then old(given.value.items) else []) + SkinsOf(skins, BaseName(path))
      ensures ToString() == "Prefab " + BaseName(path) + " - "
    {
      var base := BaseName(path);
      var d: StringArray;
      if given.Some? {
        d := given.value;
      } else {
        d := new StringArray([]);
      }
      d.PushAll(SkinsOf(skins, base));
      name := base;
      desc := "";
      this.fn := fn;
      this.assets := assets;
      deps := d;
      this.forcePathSearch := forcePathSearch;
    }

    /** toString. */
    function ToString(): string
      reads this
    {
      "Prefab " + name + " - " + desc
    }
  }
}
