/**
 * The options table of src/config.ts.  A JavaScript object enumerates its
 * (non-numeric) keys in insertion order, so the options are an ordered
 * list of entries with distinct keys: writing an existing key keeps its
 * place, writing a new key appends it, and `delete` drops it.  Option
 * values are booleans; a missing option reads as `None` (undefined).
 */
module Configuration {
  import opened Wrappers
  import opened Text

  datatype Entry = Entry(key: string, value: bool)

  type Options = seq<Entry>

  function Keys(o: Options): (r: seq<string>)
    ensures |r| == |o| && forall i :: 0 <= i < |o| ==> r[i] == o[i].key
  {
    seq(|o|, i requires 0 <= i < |o| => o[i].key)
  }

  ghost predicate KeysDistinct(o: Options)
  {
    forall i, j :: 0 <= i < j < |o| ==> o[i].key != o[j].key
  }

  /** `options[k]`: the value stored under `k`, or None. */
  function Get(o: Options, k: string): (r: Option<bool>)
    ensures r.None? <==> forall i :: 0 <= i < |o| ==> o[i].key != k
    ensures r.Some? ==> exists i :: 0 <= i < |o| && o[i] == Entry(k, r.value)
  {
    if o == [] then None
    else if o[0].key == k then Some(o[0].value)
    else
      var r := Get(o[1..], k);
      assert forall i :: 1 <= i < |o| ==> o[i] == o[1..][i - 1];
      r
  }

  /** `options[k] = v`. */
  function Put(o: Options, k: string, v: bool): (r: Options)
  {
    if o == [] then [Entry(k, v)]
    else if o[0].key == k then [Entry(k, v)] + o[1..]
    else [o[0]] + Put(o[1..], k, v)
  }

  /** `delete options[k]`. */
  function Remove(o: Options, k: string): (r: Options)
  {
    if o == [] then []
    else if o[0].key == k then Remove(o[1..], k)
    else [o[0]] + Remove(o[1..], k)
  }

  /** After a write, the key reads the written value and every other key reads as before. */
  lemma {:induction false} GetPut(o: Options, k: string, v: bool, k': string)
    ensures Get(Put(o, k, v), k') == if k' == k then Some(v) else Get(o, k')
  {
    if o != [] && o[0].key != k {
      GetPut(o[1..], k, v, k');
    }
  }

  /** A write keeps every key in place and appends a new key at the end. */
  lemma {:induction false} PutKeys(o: Options, k: string, v: bool)
    ensures |Put(o, k, v)| == if k in Keys(o) then |o| else |o| + 1
    ensures forall i :: 0 <= i < |o| ==> Put(o, k, v)[i].key == o[i].key
    ensures k !in Keys(o) ==> Put(o, k, v)[|o|] == Entry(k, v)
  {
    if o != [] && o[0].key != k {
      PutKeys(o[1..], k, v);
      assert k in Keys(o) <==> k in Keys(o[1..]) by {
        assert Keys(o) == [o[0].key] + Keys(o[1..]);
      }
    } else if o != [] {
      assert Keys(o)[0] == k;
    }
  }

  lemma PutDistinct(o: Options, k: string, v: bool)
    requires KeysDistinct(o)
    ensures KeysDistinct(Put(o, k, v))
  {
    PutKeys(o, k, v);
    var r := Put(o, k, v);
    forall i, j | 0 <= i < j < |r|
      ensures r[i].key != r[j].key
    {
      if j == |o| {
        assert Keys(o)[i] == o[i].key;
      }
    }
  }

  /** Writing the same value twice is writing it once. */
  lemma {:induction false} PutIdempotent(o: Options, k: string, v: bool)
    ensures Put(Put(o, k, v), k, v) == Put(o, k, v)
  {
    if o != [] && o[0].key != k {
      PutIdempotent(o[1..], k, v);
    }
  }

  /** After a delete the key is missing and every other key reads as before. */
  lemma {:induction false} GetRemove(o: Options, k: string, k': string)
    ensures Get(Remove(o, k), k') == if k' == k then None else Get(o, k')
  {
    if o != [] {
      GetRemove(o[1..], k, k');
    }
  }

  /** A delete keeps the order of the remaining keys. */
  lemma {:induction false} RemoveKeys(o: Options, k: string)
    ensures forall i :: 0 <= i < |Remove(o, k)| ==> Remove(o, k)[i] in o && Remove(o, k)[i].key != k
    ensures k !in Keys(o) ==> Remove(o, k) == o
  {
    if o != [] {
      RemoveKeys(o[1..], k);
      assert Keys(o) == [o[0].key] + Keys(o[1..]);
    }
  }

  /** Writing the entries of `g` one after another, in order. */
  function PutAll(o: Options, g: Options): (r: Options)
    decreases |g|
  {
    if g == [] then o
    else Put(PutAll(o, g[..|g| - 1]), g[|g| - 1].key, g[|g| - 1].value)
  }

  lemma {:induction false} GetAppend(a: Options, e: Entry, k: string)
    ensures Get(a + [e], k) == if Get(a, k).Some? then Get(a, k) else if e.key == k then Some(e.value) else None
  {
    if a != [] {
      assert (a + [e])[1..] == a[1..] + [e];
      GetAppend(a[1..], e, k);
    }
  }

  /**
   * setOptions copies every given key: afterwards a key of `g` reads its
   * value in `g`, and any other key reads as before.
   */
  lemma {:induction false} GetPutAll(o: Options, g: Options, k: string)
    requires KeysDistinct(g)
    ensures Get(PutAll(o, g), k) == if Get(g, k).Some? then Get(g, k) else Get(o, k)
    decreases |g|
  {
    if g != [] {
      var n := |g| - 1;
      assert g == g[..n] + [g[n]];
      GetPutAll(o, g[..n], k);
      GetPut(PutAll(o, g[..n]), g[n].key, g[n].value, k);
      GetAppend(g[..n], g[n], k);
      if g[n].key == k {
        assert forall i :: 0 <= i < n ==> g[..n][i].key != k;
      }
    }
  }

  /** One `k = v` line of toString. */
  function Line(e: Entry): string
  {
    e.key + " = " + (if e.value then "true" else "false")
  }

  function Lines(o: Options): (r: seq<string>)
    ensures |r| == |o| && forall i :: 0 <= i < |o| ==> r[i] == Line(o[i])
  {
    seq(|o|, i requires 0 <= i < |o| => Line(o[i]))
  }

  const Header := "PLATFORM CONFIGURATION OPTIONS"

  class Config {
    var options: Options

    ghost predicate Valid()
      reads this
    {
      KeysDistinct(options)
    }

    /** `new Config(options?)`: empty, then setOptions when options are given. */
    constructor (given: Option<Options>)
      ensures Valid()
      ensures options == if given.Some? then PutAll([], given.value) else []
    {
      options := [];
      new;
      if given.Some? {
        SetOptions(given.value);
      }
    }

    method SetOptions(given: Options)
      requires Valid()
      modifies this
      ensures Valid() && options == PutAll(old(options), given)
    {
      for i := 0 to |given|
        invariant Valid() && options == PutAll(old(options), given[..i])
      {
        assert given[..i + 1][..i] == given[..i];
        PutDistinct(options, given[i].key, given[i].value);
        options := Put(options, given[i].key, given[i].value);
      }
      assert given[..|given|] == given;
    }

    function IsEnabled(option: string): (r: Option<bool>)
      reads this
      ensures r.None? <==> option !in Keys(options)
    {
      Get(options, option)
    }

    method Enable(option: string)
      requires Valid()
      modifies this
      ensures Valid() && options == Put(old(options), option, true)
      ensures IsEnabled(option) == Some(true)
    {
      PutDistinct(options, option, true);
      GetPut(options, option, true, option);
      options := Put(options, option, true);
    }

    method Disable(option: string)
      requires Valid()
      modifies this
      ensures Valid() && options == Remove(old(options), option)
      ensures IsEnabled(option).None?
    {
      GetRemove(options, option, option);
      RemoveKeys(options, option);
      RemoveDistinct(options, option);
      options := Remove(options, option);
    }

    /** toString: the header, then one `k = v` line per option in key order, joined by newlines. */
    method ToString() returns (s: string)
      ensures s == Join([Header] + Lines(options), "\n")
      ensures s == Header + Prefixed(Lines(options), "\n")
    {
      var str := [Header];
      for i := 0 to |options|
        invariant str == [Header] + Lines(options[..i])
      {
        assert Lines(options[..i + 1]) == Lines(options[..i]) + [Line(options[i])];
        str := str + [Line(options[i])];
      }
      assert options[..|options|] == options;
      s := Join(str, "\n");
      JoinHeader(Header, Lines(options), "\n");
    }
  }

  lemma {:induction false} RemoveDistinct(o: Options, k: string)
    requires KeysDistinct(o)
    ensures KeysDistinct(Remove(o, k))
  {
    if o != [] {
      RemoveDistinct(o[1..], k);
      RemoveKeys(o[1..], k);
      var t := Remove(o[1..], k);
      forall i | 0 <= i < |t|
        ensures t[i].key != o[0].key
      {
        var j :| 0 <= j < |o[1..]| && o[1..][j] == t[i];
        assert o[j + 1] == t[i];
      }
    }
  }

  /** The defaults of TheConfig. */
  const Defaults: Options := [Entry(HideVignette, false), Entry(ForceNetbook, false)]

  /** The platform overrides of TheConfig. */
  function Override(platform: string): Option<Options>
  {
    if platform == "NACL" then Some([Entry(ForceNetbook, true)])
    else if platform == "ANDROID" || platform == "IOS" then
      Some([Entry(HideVignette, true), Entry(ForceNetbook, true)])
    else None
  }

  /** The options of TheConfig on `platform`: the defaults, then the platform's overrides. */
  function TheConfigOptions(platform: string): Options
  {
    var base := PutAll([], Defaults);
    if Override(platform).Some? then PutAll(base, Override(platform).value) else base
  }

  /** TheConfig, built as the module does when it is loaded. */
  method MakeTheConfig(platform: string) returns (c: Config)
    ensures fresh(c) && c.Valid() && c.options == TheConfigOptions(platform)
  {
    c := new Config(Some(Defaults));
    var o := Override(platform);
    if o.Some? {
      c.SetOptions(o.value);
    }
  }

  const HideVignette := "hide_vignette"
  const ForceNetbook := "force_netbookmode"

  lemma OptionNamesDiffer()
    ensures HideVignette != ForceNetbook
  {
    assert HideVignette[0] != ForceNetbook[0];
  }

  /** Copying the defaults into the empty table gives the defaults, in order. */
  lemma DefaultsCopied()
    ensures PutAll([], Defaults) == [Entry(HideVignette, false), Entry(ForceNetbook, false)]
  {
    OptionNamesDiffer();
    assert Defaults[..1] == [Entry(HideVignette, false)] && [Entry(HideVignette, false)][..0] == [];
    assert PutAll([], Defaults[..1]) == Put([], HideVignette, false) == [Entry(HideVignette, false)];
    assert Put([Entry(HideVignette, false)], ForceNetbook, false)
        == [Entry(HideVignette, false)] + Put([], ForceNetbook, false);
  }

  lemma NaclOverride()
    ensures PutAll(Defaults, Override("NACL").value) == [Entry(HideVignette, false), Entry(ForceNetbook, true)]
  {
    OptionNamesDiffer();
    var g := [Entry(ForceNetbook, true)];
    assert g[..0] == [];
    assert Put(Defaults, ForceNetbook, true) == [Entry(HideVignette, false)] + Put([Entry(ForceNetbook, false)], ForceNetbook, true);
  }

  lemma MobileOverride(platform: string)
    requires platform == "ANDROID" || platform == "IOS"
    ensures PutAll(Defaults, Override(platform).value) == [Entry(HideVignette, true), Entry(ForceNetbook, true)]
  {
    OptionNamesDiffer();
    var g := [Entry(HideVignette, true), Entry(ForceNetbook, true)];
    assert Override(platform).value == g;
    assert g[..1] == [Entry(HideVignette, true)] && [Entry(HideVignette, true)][..0] == [];
    assert PutAll(Defaults, g[..1]) == Put(Defaults, HideVignette, true) == [Entry(HideVignette, true), Entry(ForceNetbook, false)];
    assert Put([Entry(HideVignette, true), Entry(ForceNetbook, false)], ForceNetbook, true)
        == [Entry(HideVignette, true)] + Put([Entry(ForceNetbook, false)], ForceNetbook, true);
  }

  /**
   * TheConfig holds both options, in the defaults' order: NACL, ANDROID and
   * IOS force netbook mode, ANDROID and IOS also hide the vignette, and
   * every other platform keeps both false.
   */
  lemma TheConfigValues(platform: string)
    ensures TheConfigOptions(platform) ==
      [Entry(HideVignette, platform == "ANDROID" || platform == "IOS"),
       Entry(ForceNetbook, platform == "NACL" || platform == "ANDROID" || platform == "IOS")]
  {
    DefaultsCopied();
    if platform == "NACL" {
      NaclOverride();
    } else if platform == "ANDROID" || platform == "IOS" {
      MobileOverride(platform);
    }
  }
}
