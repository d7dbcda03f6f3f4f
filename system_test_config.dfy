/** The end-to-end configuration holder. A Python dict is a mutable object
    shared by reference, so it is a class here: a non-empty dict handed to
    the constructor is the very object the configuration then fills and
    updates. */
module SystemTestConfig {
  import opened Wrappers
  import opened PyValue
  import opened SystemTestUtils

  /** A mutable dict object. */
  class PyDictObject {
    var entries: Dict<Value>

    constructor(entries: Dict<Value>)
      ensures this.entries == entries
    {
      this.entries := entries;
    }
  }

  /** `d` with each default, in order, added where its key is absent. */
  function AddDefaults(d: Dict<Value>, defaults: Dict<Value>): Dict<Value>
    decreases |defaults|
  {
    if defaults == [] then d
    else
      var e := AddDefaults(d, defaults[..|defaults| - 1]);
      var (k, v) := defaults[|defaults| - 1];
      if HasKey(e, k) then e else e + [(k, v)]
  }

  /** Filling in defaults keeps every key already present with its value,
      and answers from the defaults for every other key. */
  lemma {:induction false} AddDefaultsGet(d: Dict<Value>, defaults: Dict<Value>, k: string)
    requires DistinctKeys(defaults)
    ensures Get(AddDefaults(d, defaults), k) == if HasKey(d, k) then Get(d, k) else Get(defaults, k)
    decreases |defaults|
  {
    if defaults != [] {
      var init := defaults[..|defaults| - 1];
      var (kl, vl) := defaults[|defaults| - 1];
      AddDefaultsGet(d, init, k);
      AddDefaultsGet(d, init, kl);
      var e := AddDefaults(d, init);
      assert defaults == init + [(kl, vl)];
      GetAppend(init, kl, vl, k);
      GetAppend(e, kl, vl, k);
      assert !HasKey(init, kl) by {
        forall i | 0 <= i < |init| ensures init[i].0 != kl {
          assert init[i] == defaults[i];
        }
      }
    }
  }

  /** Defaults never create a key twice. */
  lemma {:induction false} AddDefaultsDistinct(d: Dict<Value>, defaults: Dict<Value>)
    requires DistinctKeys(d)
    ensures DistinctKeys(AddDefaults(d, defaults))
    decreases |defaults|
  {
    if defaults != [] {
      AddDefaultsDistinct(d, defaults[..|defaults| - 1]);
    }
  }

  class E2ETestConfig {
    var config: PyDictObject

    /** `E2ETestConfig(config)`: `config or {}`, then the defaults. */
    constructor(arg: PyDictObject?)
      modifies arg
      ensures arg != null && old(arg.entries) != [] ==>
        config == arg && arg.entries == AddDefaults(old(arg.entries), DefaultConfig())
      ensures arg == null || old(arg.entries) == [] ==>
        fresh(config) && config.entries == AddDefaults([], DefaultConfig())
      ensures arg != null && old(arg.entries) == [] ==> arg.entries == old(arg.entries)
    {
      if arg != null && arg.entries != [] {
        config := arg;
      } else {
        config := new PyDictObject([]);
      }
      new;
      SetDefaults();
    }

    /** `_set_defaults`: adds each default whose key is absent. */
    method SetDefaults()
      modifies config
      ensures config.entries == AddDefaults(old(config.entries), DefaultConfig())
    {
      var defaults := DefaultConfig();
      var i := 0;
      while i < |defaults|
        invariant 0 <= i <= |defaults|
        invariant config.entries == AddDefaults(old(config.entries), defaults[..i])
      {
        assert defaults[..i + 1][..i] == defaults[..i];
        var (key, value) := defaults[i];
        if !HasKey(config.entries, key) {
          config.entries := config.entries + [(key, value)];
        }
        i := i + 1;
      }
      assert defaults[..|defaults|] == defaults;
    }

    /** `get(key, default)`. */
    function GetOr(key: string, default: Value): (r: Value)
      reads this, config
      ensures !HasKey(config.entries, key) ==> r == default
      ensures HasKey(config.entries, key) ==> exists i :: 0 <= i < |config.entries| && config.entries[i] == (key, r)
    {
      Get(config.entries, key).GetOr(default)
    }

    /** `validate`: the first required field that is missing or falsy, as
        the message of the error raised. */
    function Validate(): (r: Option<string>)
      reads this, config
      ensures r.None? <==> forall k :: 0 <= k < |RequiredFields| ==>
        Truthy(Get(config.entries, RequiredFields[k]).GetOr(PyNone))
      ensures r.Some? ==> exists k :: (0 <= k < |RequiredFields| && r.value == "缺少必要配置项: " + RequiredFields[k]
        && !Truthy(Get(config.entries, RequiredFields[k]).GetOr(PyNone))
        && forall j :: 0 <= j < k ==> Truthy(Get(config.entries, RequiredFields[j]).GetOr(PyNone)))
    {
      match MissingField(config.entries, RequiredFields)
      case None => None
      case Some(field) => Some("缺少必要配置项: " + field)
    }

    /** `update(other)`: `dict.update` on the stored object. */
    method Update(other: Dict<Value>)
      modifies config
      ensures config.entries == Merge(old(config.entries), other)
    {
      config.entries := Merge(config.entries, other);
    }

    /** `to_dict`: a copy, a new object distinct from the stored one. */
    method ToDict() returns (d: PyDictObject)
      ensures fresh(d) && d.entries == config.entries
    {
      d := new PyDictObject(config.entries);
    }
  }

  /** A configuration built from caller values has every default key, keeps
      every caller value, and validates on the defaults alone. */
  lemma ConstructedConfig(entries: Dict<Value>, k: string)
    ensures var c := AddDefaults(entries, DefaultConfig());
      (HasKey(DefaultConfig(), k) ==> HasKey(c, k))
      && (HasKey(entries, k) ==> Get(c, k) == Get(entries, k))
      && (!HasKey(entries, k) ==> Get(c, k) == Get(DefaultConfig(), k))
  {
    AddDefaultsGet(entries, DefaultConfig(), k);
  }

  /** `update` overwrites exactly the keys it is given. */
  lemma UpdateOverwrites(entries: Dict<Value>, other: Dict<Value>, k: string)
    requires DistinctKeys(other)
    ensures Get(Merge(entries, other), k) == if HasKey(other, k) then Get(other, k) else Get(entries, k)
  {
    GetMerge(entries, other, k);
  }

  /** Changing the copy leaves the configuration as it was. */
  method MutateCopy(cfg: E2ETestConfig, other: Dict<Value>) returns (copy: PyDictObject)
    ensures fresh(copy) && copy.entries == Merge(cfg.config.entries, other)
    ensures cfg.config.entries == old(cfg.config.entries)
  {
    copy := cfg.ToDict();
    copy.entries := Merge(copy.entries, other);
  }
}
