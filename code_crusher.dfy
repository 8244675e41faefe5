/**
 * The configuration resolver of the CodeCrusher command-line tool
 * (`main.py`): `load_config` validates the keys of the parsed configuration
 * file and `merge_config_with_args` combines the file with the command-line
 * flags under fixed precedence rules.
 *
 * Reading the file, `argparse` and logging are not modelled: the outcome of
 * reading and parsing the file is a `FileOutcome`, and the parsed flags are an
 * `Args` record holding what `argparse` guarantees.
 */
module CodeCrusher {
  import opened Wrappers
  import Collections

  /** A value produced by Python's `json.load`. */
  datatype Json =
    | JNull
    | JBool(b: bool)
    | JInt(i: int)
    | JFloat(r: real)
    | JString(s: string)
    | JArray(items: seq<Json>)
    | JObject(fields: seq<(string, Json)>)

  /** A Python `dict` with string keys: its entries in insertion order. */
  type Dict = seq<(string, Json)>

  /** A Python dict never holds a key twice. */
  ghost predicate DistinctKeys(d: Dict)
  {
    forall i, j :: 0 <= i < j < |d| ==> d[i].0 != d[j].0
  }

  /** `d.get(k)`: the value stored under `k`, if any. */
  function Get(d: Dict, k: string): Option<Json>
  {
    if d == [] then None
    else if d[0].0 == k then Some(d[0].1)
    else Get(d[1..], k)
  }

  /** A key `get` finds is one of the dict's keys. */
  lemma {:induction false} GetKeys(d: Dict, k: string)
    ensures Get(d, k).Some? ==> k in Collections.Keys(d)
  {
    if d != [] && d[0].0 != k {
      GetKeys(d[1..], k);
      assert Collections.Keys(d) == [d[0].0] + Collections.Keys(d[1..]);
    }
  }

  /** A key no entry carries reads as absent. */
  lemma {:induction false} GetAbsent(d: Dict, k: string)
    requires forall i :: 0 <= i < |d| ==> d[i].0 != k
    ensures Get(d, k) == None
  {
    if d != [] {
      assert forall i :: 0 <= i < |d[1..]| ==> d[1..][i] == d[i + 1];
      GetAbsent(d[1..], k);
    }
  }

  /** In a dict, every entry is what `get` returns for its key. */
  lemma {:induction false} GetEntry(d: Dict, e: (string, Json))
    requires DistinctKeys(d) && e in d
    ensures Get(d, e.0) == Some(e.1)
  {
    if d[0] != e {
      assert d[0].0 != e.0 by {
        var i :| 0 <= i < |d| && d[i] == e;
        assert i != 0;
      }
      GetEntry(d[1..], e);
    }
  }

  /**
   * `d[k] = v`: a key already present keeps its position and gets the new
   * value, a new key is added last; no other key changes.
   */
  function Set(d: Dict, k: string, v: Json): (r: Dict)
    ensures Get(r, k) == Some(v)
    ensures forall k' :: k' != k ==> Get(r, k') == Get(d, k')
    ensures Collections.Keys(r) == if Get(d, k).Some? then Collections.Keys(d) else Collections.Keys(d) + [k]
  {
    if d == [] then [(k, v)]
    else
      assert d == [d[0]] + d[1..];
      Collections.KeysAppend([d[0]], d[1..]);
      if d[0].0 == k then
        Collections.KeysAppend([(k, v)], d[1..]);
        [(k, v)] + d[1..]
      else
        var rest := Set(d[1..], k, v);
        Collections.KeysAppend([d[0]], rest);
        [d[0]] + rest
  }

  /** `d.pop(k)`: drops the entry stored under `k`. */
  function Pop(d: Dict, k: string): Dict
  {
    Collections.Filter(d, NotKey(k))
  }

  function NotKey(k: string): ((string, Json)) -> bool
  {
    (e: (string, Json)) => e.0 != k
  }

  /** Reading a filtered dict: an entry survives exactly when it passes the filter. */
  lemma {:induction false} GetFilter(d: Dict, p: ((string, Json)) -> bool, k: string)
    requires DistinctKeys(d)
    ensures Get(Collections.Filter(d, p), k) ==
      if Get(d, k).Some? && p((k, Get(d, k).value)) then Get(d, k) else None
  {
    if d != [] {
      DistinctTail(d);
      GetFilter(d[1..], p, k);
      if d[0].0 == k {
        GetAbsent(d[1..], k);
      }
    }
  }

  /** Dropping the first entry keeps the keys distinct. */
  lemma DistinctTail(d: Dict)
    requires DistinctKeys(d) && d != []
    ensures DistinctKeys(d[1..])
    ensures forall e :: e in d[1..] ==> e.0 != d[0].0
  {
    forall i, j | 0 <= i < j < |d[1..]| ensures d[1..][i].0 != d[1..][j].0 {
      assert d[1..][i] == d[i + 1] && d[1..][j] == d[j + 1];
    }
    forall e | e in d[1..] ensures e.0 != d[0].0 {
      var m :| 0 <= m < |d[1..]| && d[1..][m] == e;
      assert d[m + 1] == e;
    }
  }

  /** An entry whose key the rest lacks can go in front. */
  lemma DistinctCons(e: (string, Json), rest: Dict)
    requires DistinctKeys(rest) && forall x :: x in rest ==> x.0 != e.0
    ensures DistinctKeys([e] + rest)
  {
    var r := [e] + rest;
    forall i, j | 0 <= i < j < |r| ensures r[i].0 != r[j].0 {
      assert r[j] == rest[j - 1] && r[j] in rest;
      if i > 0 {
        assert r[i] == rest[i - 1];
      }
    }
  }

  /** A dict keeps distinct keys when entries are dropped from it. */
  lemma {:induction false} FilterDistinct(d: Dict, p: ((string, Json)) -> bool)
    requires DistinctKeys(d)
    ensures DistinctKeys(Collections.Filter(d, p))
  {
    if d != [] {
      DistinctTail(d);
      FilterDistinct(d[1..], p);
      if p(d[0]) {
        DistinctCons(d[0], Collections.Filter(d[1..], p));
      }
    }
  }

  // The names `load_config` and `merge_config_with_args` look up.
  const Provider: string := "provider"
  const Model: string := "model"
  const MaxRetries: string := "max_retries"
  const Timeout: string := "timeout"
  const UseCache: string := "use_cache"
  const Prompt: string := "prompt"
  const Tags: string := "tags"
  const DefaultPromptText: string := "default_prompt_text"
  const DefaultTags: string := "default_tags"

  /** What reading and parsing the configuration file produced. */
  datatype FileOutcome =
    | Missing              // the path does not exist
    | Malformed            // `json.JSONDecodeError`
    | Unreadable           // any other exception while opening or reading
    | Parsed(config: Dict) // a JSON object

  const ValidProviders: seq<Json> := [JString("mistral"), JString("openai")]

  /** The check `load_config` applies to the value of each key it knows. */
  predicate FieldOk(k: string, v: Json)
  {
    if k == Provider then v in ValidProviders
    // Python's `isinstance(v, int)` also accepts `bool`.
    else if k == MaxRetries || k == Timeout then v.JInt? || v.JBool?
    else if k == UseCache then v.JBool?
    else if k == DefaultTags then v.JArray?
    else true
  }

  predicate Accepted(e: (string, Json))
  {
    FieldOk(e.0, e.1)
  }

  /** The file configuration once every invalid known key is dropped. */
  function Validated(d: Dict): Dict
  {
    Collections.Filter(d, Accepted)
  }

  /**
   * Validation drops a known key whose value is invalid and changes nothing
   * else: every other key keeps its value, and the entries keep their order.
   */
  lemma ValidatedSpec(d: Dict)
    requires DistinctKeys(d)
    ensures forall k :: Get(Validated(d), k) ==
                        if Get(d, k).Some? && FieldOk(k, Get(d, k).value) then Get(d, k) else None
    ensures Collections.IsSubsequence(Validated(d), d)
    ensures DistinctKeys(Validated(d))
  {
    Collections.FilterSubsequence(d, Accepted);
    forall k
      ensures Get(Validated(d), k) ==
              if Get(d, k).Some? && FieldOk(k, Get(d, k).value) then Get(d, k) else None
    {
      GetFilter(d, Accepted, k);
    }
    FilterDistinct(d, Accepted);
  }

  /** An entry survives the checks of the keys in `checked`. */
  function KeptAfter(checked: seq<string>): ((string, Json)) -> bool
  {
    (e: (string, Json)) => e.0 !in checked || FieldOk(e.0, e.1)
  }

  /**
   * One check of `load_config`: popping `k` when its value is invalid turns
   * the entries that survived `checked` into those that survive `checked + [k]`.
   */
  lemma PruneStep(d: Dict, checked: seq<string>, k: string, next: seq<string>)
    requires DistinctKeys(d) && next == checked + [k]
    ensures var c := Collections.Filter(d, KeptAfter(checked));
            (if Get(c, k).Some? && !FieldOk(k, Get(c, k).value) then Pop(c, k) else c)
            == Collections.Filter(d, KeptAfter(next))
  {
    var c := Collections.Filter(d, KeptAfter(checked));
    GetFilter(d, KeptAfter(checked), k);
    if Get(c, k).Some? && !FieldOk(k, Get(c, k).value) {
      forall e | e in d
        ensures KeptAfter(checked + [k])(e) == (KeptAfter(checked)(e) && NotKey(k)(e))
      {
        if e.0 == k {
          GetEntry(d, e);
        }
      }
      Collections.FilterFilter(d, KeptAfter(checked), NotKey(k), KeptAfter(checked + [k]));
    } else {
      forall e | e in d
        ensures KeptAfter(checked)(e) == KeptAfter(checked + [k])(e)
      {
        if e.0 == k {
          GetEntry(d, e);
        }
      }
      Collections.FilterCongruent(d, KeptAfter(checked), KeptAfter(checked + [k]));
    }
  }

  /** The keys `load_config` checks, in the order it checks them. */
  const CheckedKeys: seq<string> := [Provider, MaxRetries, Timeout, UseCache, DefaultTags]

  /** Every key `FieldOk` restricts is checked, so surviving every check is validation. */
  lemma CheckedKeysSuffice(d: Dict)
    ensures Collections.Filter(d, KeptAfter(CheckedKeys)) == Validated(d)
  {
    forall e | e in d
      ensures KeptAfter(CheckedKeys)(e) == Accepted(e)
    {
    }
    Collections.FilterCongruent(d, KeptAfter(CheckedKeys), Accepted);
  }

  /**
   * `load_config`: a missing, malformed or unreadable file gives an empty
   * configuration; otherwise the parsed dict is pruned in place, one known
   * key at a time, and whatever survives is returned in its original order.
   */
  method LoadConfig(file: FileOutcome) returns (config: Dict)
    requires file.Parsed? ==> DistinctKeys(file.config)
    ensures !file.Parsed? ==> config == []
    ensures file.Parsed? ==> config == Validated(file.config)
  {
    match file
    case Missing =>
      return [];
    case Malformed =>
      return [];
    case Unreadable =>
      return [];
    case Parsed(parsed) =>
      config := parsed;
      Collections.FilterAll(parsed, KeptAfter([]));

      PruneStep(parsed, [], Provider, [Provider]);
      if Get(config, Provider).Some? && Get(config, Provider).value !in ValidProviders {
        config := Pop(config, Provider);
      }
      assert config == Collections.Filter(parsed, KeptAfter([Provider]));

      PruneStep(parsed, [Provider], MaxRetries, [Provider, MaxRetries]);
      if Get(config, MaxRetries).Some? && !(Get(config, MaxRetries).value.JInt? || Get(config, MaxRetries).value.JBool?) {
        config := Pop(config, MaxRetries);
      }
      assert config == Collections.Filter(parsed, KeptAfter([Provider, MaxRetries]));

      PruneStep(parsed, [Provider, MaxRetries], Timeout, [Provider, MaxRetries, Timeout]);
      if Get(config, Timeout).Some? && !(Get(config, Timeout).value.JInt? || Get(config, Timeout).value.JBool?) {
        config := Pop(config, Timeout);
      }
      assert config == Collections.Filter(parsed, KeptAfter([Provider, MaxRetries, Timeout]));

      PruneStep(parsed, [Provider, MaxRetries, Timeout], UseCache, [Provider, MaxRetries, Timeout, UseCache]);
      if Get(config, UseCache).Some? && !Get(config, UseCache).value.JBool? {
        config := Pop(config, UseCache);
      }
      assert config == Collections.Filter(parsed, KeptAfter([Provider, MaxRetries, Timeout, UseCache]));

      PruneStep(parsed, [Provider, MaxRetries, Timeout, UseCache], DefaultTags, CheckedKeys);
      if Get(config, DefaultTags).Some? && !Get(config, DefaultTags).value.JArray? {
        config := Pop(config, DefaultTags);
      }
      assert config == Collections.Filter(parsed, KeptAfter(CheckedKeys));

      CheckedKeysSuffice(parsed);
  }

  /** The flags as `argparse` leaves them (`None` for a flag not given). */
  datatype Args = Args(
    config: Option<string>,
    provider: Option<string>,
    model: Option<string>,
    maxRetries: Option<int>,
    timeout: Option<int>,
    useCache: bool,
    noCache: bool,
    prompt: Option<string>,
    tags: Option<seq<string>>)

  /** Python truthiness of an optional string: given and not empty. */
  predicate Truthy(s: Option<string>)
  {
    s.Some? && s.value != ""
  }

  /** Python truthiness of an optional list: given and not empty. */
  predicate TruthyList(s: Option<seq<string>>)
  {
    s.Some? && s.value != []
  }

  /** A list of strings as a JSON array. */
  function StringArray(ss: seq<string>): (j: Json)
    ensures j.JArray? && |j.items| == |ss|
    ensures forall i :: 0 <= i < |ss| ==> j.items[i] == JString(ss[i])
  {
    JArray(seq(|ss|, i requires 0 <= i < |ss| => JString(ss[i])))
  }

  /** The seven keys the merged configuration may hold. */
  predicate IsOutputKey(k: string)
  {
    k == Provider || k == Model || k == MaxRetries || k == Timeout || k == UseCache || k == Prompt || k == Tags
  }

  /** `[k]` when `given` holds and `d` has no entry `k` yet: the key an assignment appends. */
  function IfAdded(d: Dict, k: string, given: bool): seq<string>
  {
    if given && Get(d, k).None? then [k] else []
  }

  /**
   * One guarded assignment of the merge, `if v is given: d[k] = v`: `k` gets
   * `v` and is appended when new; no other key changes.
   */
  function AssignIf(d: Dict, k: string, v: Option<Json>): (r: Dict)
    ensures Get(r, k) == if v.Some? then v else Get(d, k)
    ensures forall k' :: k' != k ==> Get(r, k') == Get(d, k')
    ensures Collections.Keys(r) == Collections.Keys(d) + IfAdded(d, k, v.Some?)
  {
    if v.Some? then Set(d, k, v.value) else d
  }

  /** The first half of `merge_config_with_args`: the file's values assigned onto `base`. */
  function WithFileValues(config: Dict, base: Dict): Dict
  {
    var d1 := AssignIf(base, Provider, Get(config, Provider));
    var d2 := AssignIf(d1, Model, Get(config, Model));
    var d3 := AssignIf(d2, MaxRetries, Get(config, MaxRetries));
    var d4 := AssignIf(d3, Timeout, Get(config, Timeout));
    var d5 := AssignIf(d4, UseCache, Get(config, UseCache));
    var d6 := AssignIf(d5, Prompt, Get(config, DefaultPromptText));
    AssignIf(d6, Tags, Get(config, DefaultTags))
  }

  /** The value a string flag assigns: its own value when truthy. */
  function StringFlag(flag: Option<string>): (v: Option<Json>)
    ensures v.Some? <==> Truthy(flag)
    ensures v.Some? ==> v.value == JString(flag.value)
  {
    if Truthy(flag) then Some(JString(flag.value)) else None
  }

  /** The value an integer flag assigns: its own value whenever given. */
  function IntFlag(flag: Option<int>): (v: Option<Json>)
    ensures v.Some? <==> flag.Some?
    ensures v.Some? ==> v.value == JInt(flag.value)
  {
    if flag.Some? then Some(JInt(flag.value)) else None
  }

  /** The value a switch assigns: `value` when the switch is on. */
  function SwitchFlag(on: bool, value: bool): (v: Option<Json>)
    ensures v.Some? <==> on
    ensures v.Some? ==> v.value == JBool(value)
  {
    if on then Some(JBool(value)) else None
  }

  /** The value `--tags` assigns: the list when truthy. */
  function ListFlag(flag: Option<seq<string>>): (v: Option<Json>)
    ensures v.Some? <==> TruthyList(flag)
    ensures v.Some? ==> v.value == StringArray(flag.value)
  {
    if TruthyList(flag) then Some(StringArray(flag.value)) else None
  }

  /** The second half of `merge_config_with_args`: the given flags assigned onto `base`. */
  function WithFlags(args: Args, base: Dict): Dict
  {
    var d1 := AssignIf(base, Provider, StringFlag(args.provider));
    var d2 := AssignIf(d1, Model, StringFlag(args.model));
    var d3 := AssignIf(d2, MaxRetries, IntFlag(args.maxRetries));
    var d4 := AssignIf(d3, Timeout, IntFlag(args.timeout));
    var d5 := AssignIf(d4, UseCache, SwitchFlag(args.useCache, true));
    var d6 := AssignIf(d5, UseCache, SwitchFlag(args.noCache, false));
    var d7 := AssignIf(d6, Prompt, StringFlag(args.prompt));
    AssignIf(d7, Tags, ListFlag(args.tags))
  }

  /** The dict `merge_config_with_args` returns. */
  function Merged(args: Args, config: Dict): Dict
  {
    WithFlags(args, WithFileValues(config, []))
  }

  /**
   * `merge_config_with_args`: start from an empty dict, assign the file's
   * values, then the flags that were given, in the order the source writes
   * them.
   */
  method MergeConfigWithArgs(args: Args, config: Dict) returns (merged: Dict)
    ensures merged == Merged(args, config)
  {
    merged := [];

    // The file's values, `default_prompt_text` and `default_tags` renamed.
    merged := AssignIf(merged, Provider, Get(config, Provider));
    merged := AssignIf(merged, Model, Get(config, Model));
    merged := AssignIf(merged, MaxRetries, Get(config, MaxRetries));
    merged := AssignIf(merged, Timeout, Get(config, Timeout));
    merged := AssignIf(merged, UseCache, Get(config, UseCache));
    merged := AssignIf(merged, Prompt, Get(config, DefaultPromptText));
    merged := AssignIf(merged, Tags, Get(config, DefaultTags));

    // The flags that override them.
    merged := AssignIf(merged, Provider, StringFlag(args.provider));
    merged := AssignIf(merged, Model, StringFlag(args.model));
    merged := AssignIf(merged, MaxRetries, IntFlag(args.maxRetries));
    merged := AssignIf(merged, Timeout, IntFlag(args.timeout));
    merged := AssignIf(merged, UseCache, SwitchFlag(args.useCache, true));
    merged := AssignIf(merged, UseCache, SwitchFlag(args.noCache, false));
    merged := AssignIf(merged, Prompt, StringFlag(args.prompt));
    merged := AssignIf(merged, Tags, ListFlag(args.tags));
  }

  /** The file half renames `default_prompt_text` and `default_tags` and copies the other five keys. */
  lemma FileValuesGet(config: Dict, base: Dict)
    ensures var d := WithFileValues(config, base);
      && Get(d, Provider) == (if Get(config, Provider).Some? then Get(config, Provider) else Get(base, Provider))
      && Get(d, Model) == (if Get(config, Model).Some? then Get(config, Model) else Get(base, Model))
      && Get(d, MaxRetries) == (if Get(config, MaxRetries).Some? then Get(config, MaxRetries) else Get(base, MaxRetries))
      && Get(d, Timeout) == (if Get(config, Timeout).Some? then Get(config, Timeout) else Get(base, Timeout))
      && Get(d, UseCache) == (if Get(config, UseCache).Some? then Get(config, UseCache) else Get(base, UseCache))
      && Get(d, Prompt) == (if Get(config, DefaultPromptText).Some? then Get(config, DefaultPromptText) else Get(base, Prompt))
      && Get(d, Tags) == (if Get(config, DefaultTags).Some? then Get(config, DefaultTags) else Get(base, Tags))
  {
  }

  /** The flag half overrides exactly the keys whose flags were given. */
  lemma FlagsGet(args: Args, base: Dict)
    ensures var d := WithFlags(args, base);
      && Get(d, Provider) == (if Truthy(args.provider) then StringFlag(args.provider) else Get(base, Provider))
      && Get(d, Model) == (if Truthy(args.model) then StringFlag(args.model) else Get(base, Model))
      && Get(d, MaxRetries) == (if args.maxRetries.Some? then IntFlag(args.maxRetries) else Get(base, MaxRetries))
      && Get(d, Timeout) == (if args.timeout.Some? then IntFlag(args.timeout) else Get(base, Timeout))
      && Get(d, UseCache) == (if args.noCache then Some(JBool(false)) else if args.useCache then Some(JBool(true)) else Get(base, UseCache))
      && Get(d, Prompt) == (if Truthy(args.prompt) then StringFlag(args.prompt) else Get(base, Prompt))
      && Get(d, Tags) == (if TruthyList(args.tags) then ListFlag(args.tags) else Get(base, Tags))
  {
  }

  /** One assignment appends `k` exactly when `base`, which agrees with `d` on `k`, lacks it. */
  lemma AssignIfKeys(d: Dict, k: string, v: Option<Json>, base: Dict, prefix: seq<string>)
    requires Collections.Keys(d) == prefix && Get(d, k) == Get(base, k)
    ensures Collections.Keys(AssignIf(d, k, v)) == prefix + IfAdded(base, k, v.Some?)
  {
  }

  /** The file half appends the keys it assigns that `base` lacks, in merge order. */
  lemma FileValuesKeys(config: Dict, base: Dict)
    ensures Collections.Keys(WithFileValues(config, base)) == Collections.Keys(base)
      + IfAdded(base, Provider, Get(config, Provider).Some?)
      + IfAdded(base, Model, Get(config, Model).Some?)
      + IfAdded(base, MaxRetries, Get(config, MaxRetries).Some?)
      + IfAdded(base, Timeout, Get(config, Timeout).Some?)
      + IfAdded(base, UseCache, Get(config, UseCache).Some?)
      + IfAdded(base, Prompt, Get(config, DefaultPromptText).Some?)
      + IfAdded(base, Tags, Get(config, DefaultTags).Some?)
  {
    var keys := Collections.Keys(base);
    AssignIfKeys(base, Provider, Get(config, Provider), base, keys);
    var d1 := AssignIf(base, Provider, Get(config, Provider));
    keys := keys + IfAdded(base, Provider, Get(config, Provider).Some?);
    AssignIfKeys(d1, Model, Get(config, Model), base, keys);
    var d2 := AssignIf(d1, Model, Get(config, Model));
    keys := keys + IfAdded(base, Model, Get(config, Model).Some?);
    AssignIfKeys(d2, MaxRetries, Get(config, MaxRetries), base, keys);
    var d3 := AssignIf(d2, MaxRetries, Get(config, MaxRetries));
    keys := keys + IfAdded(base, MaxRetries, Get(config, MaxRetries).Some?);
    AssignIfKeys(d3, Timeout, Get(config, Timeout), base, keys);
    var d4 := AssignIf(d3, Timeout, Get(config, Timeout));
    keys := keys + IfAdded(base, Timeout, Get(config, Timeout).Some?);
    AssignIfKeys(d4, UseCache, Get(config, UseCache), base, keys);
    var d5 := AssignIf(d4, UseCache, Get(config, UseCache));
    keys := keys + IfAdded(base, UseCache, Get(config, UseCache).Some?);
    AssignIfKeys(d5, Prompt, Get(config, DefaultPromptText), base, keys);
    var d6 := AssignIf(d5, Prompt, Get(config, DefaultPromptText));
    keys := keys + IfAdded(base, Prompt, Get(config, DefaultPromptText).Some?);
    AssignIfKeys(d6, Tags, Get(config, DefaultTags), base, keys);
  }

  /** The two cache switches together append `use_cache` at most once. */
  lemma CacheFlagsKeys(d: Dict, args: Args, base: Dict, prefix: seq<string>)
    requires Collections.Keys(d) == prefix && Get(d, UseCache) == Get(base, UseCache)
    ensures Collections.Keys(AssignIf(AssignIf(d, UseCache, SwitchFlag(args.useCache, true)), UseCache, SwitchFlag(args.noCache, false)))
      == prefix + IfAdded(base, UseCache, args.useCache || args.noCache)
  {
  }

  /** The last four flag assignments, onto a dict that agrees with `base` on their keys. */
  lemma FlagsTailKeys(args: Args, d4: Dict, base: Dict, prefix: seq<string>)
    requires Collections.Keys(d4) == prefix
    requires Get(d4, UseCache) == Get(base, UseCache)
    requires Get(d4, Prompt) == Get(base, Prompt) && Get(d4, Tags) == Get(base, Tags)
    ensures var d5 := AssignIf(d4, UseCache, SwitchFlag(args.useCache, true));
            var d6 := AssignIf(d5, UseCache, SwitchFlag(args.noCache, false));
            var d7 := AssignIf(d6, Prompt, StringFlag(args.prompt));
            Collections.Keys(AssignIf(d7, Tags, ListFlag(args.tags))) == prefix
              + IfAdded(base, UseCache, args.useCache || args.noCache)
              + IfAdded(base, Prompt, Truthy(args.prompt))
              + IfAdded(base, Tags, TruthyList(args.tags))
  {
    // `--use-cache` and `--no-cache` assign the same key: it is appended once.
    CacheFlagsKeys(d4, args, base, prefix);
    var d6 := AssignIf(AssignIf(d4, UseCache, SwitchFlag(args.useCache, true)), UseCache, SwitchFlag(args.noCache, false));
    var keys := prefix + IfAdded(base, UseCache, args.useCache || args.noCache);
    AssignIfKeys(d6, Prompt, StringFlag(args.prompt), base, keys);
    var d7 := AssignIf(d6, Prompt, StringFlag(args.prompt));
    keys := keys + IfAdded(base, Prompt, Truthy(args.prompt));
    AssignIfKeys(d7, Tags, ListFlag(args.tags), base, keys);
  }

  /** The flag half appends the keys it assigns that `base` lacks, in merge order. */
  lemma FlagsKeys(args: Args, base: Dict)
    ensures Collections.Keys(WithFlags(args, base)) == Collections.Keys(base)
      + IfAdded(base, Provider, Truthy(args.provider))
      + IfAdded(base, Model, Truthy(args.model))
      + IfAdded(base, MaxRetries, args.maxRetries.Some?)
      + IfAdded(base, Timeout, args.timeout.Some?)
      + IfAdded(base, UseCache, args.useCache || args.noCache)
      + IfAdded(base, Prompt, Truthy(args.prompt))
      + IfAdded(base, Tags, TruthyList(args.tags))
  {
    var keys := Collections.Keys(base);
    AssignIfKeys(base, Provider, StringFlag(args.provider), base, keys);
    var d1 := AssignIf(base, Provider, StringFlag(args.provider));
    keys := keys + IfAdded(base, Provider, Truthy(args.provider));
    AssignIfKeys(d1, Model, StringFlag(args.model), base, keys);
    var d2 := AssignIf(d1, Model, StringFlag(args.model));
    keys := keys + IfAdded(base, Model, Truthy(args.model));
    AssignIfKeys(d2, MaxRetries, IntFlag(args.maxRetries), base, keys);
    var d3 := AssignIf(d2, MaxRetries, IntFlag(args.maxRetries));
    keys := keys + IfAdded(base, MaxRetries, args.maxRetries.Some?);
    AssignIfKeys(d3, Timeout, IntFlag(args.timeout), base, keys);
    var d4 := AssignIf(d3, Timeout, IntFlag(args.timeout));
    keys := keys + IfAdded(base, Timeout, args.timeout.Some?);
    FlagsTailKeys(args, d4, base, keys);
  }

  /**
   * Precedence of the merge: `provider`, `model`, `prompt` and `tags` flags
   * win only when truthy (an empty string keeps the file value);
   * `max_retries` and `timeout` flags win whenever given, 0 included;
   * `--no-cache` beats `--use-cache`, which beats the file; `prompt` and
   * `tags` come from the file's `default_prompt_text` and `default_tags`.
   */
  lemma MergedValues(args: Args, config: Dict)
    ensures var m := Merged(args, config);
      && Get(m, Provider) == (if Truthy(args.provider) then Some(JString(args.provider.value)) else Get(config, Provider))
      && Get(m, Model) == (if Truthy(args.model) then Some(JString(args.model.value)) else Get(config, Model))
      && Get(m, MaxRetries) == (if args.maxRetries.Some? then Some(JInt(args.maxRetries.value)) else Get(config, MaxRetries))
      && Get(m, Timeout) == (if args.timeout.Some? then Some(JInt(args.timeout.value)) else Get(config, Timeout))
      && Get(m, UseCache) == (if args.noCache then Some(JBool(false)) else if args.useCache then Some(JBool(true)) else Get(config, UseCache))
      && Get(m, Prompt) == (if Truthy(args.prompt) then Some(JString(args.prompt.value)) else Get(config, DefaultPromptText))
      && Get(m, Tags) == (if TruthyList(args.tags) then Some(StringArray(args.tags.value)) else Get(config, DefaultTags))
  {
    FileValuesGet(config, []);
    FlagsGet(args, WithFileValues(config, []));
  }

  /** `[k]` when the file holds `fileKey`, the name `k` is read from. */
  function IfInFile(config: Dict, fileKey: string, k: string): seq<string>
  {
    if Get(config, fileKey).Some? then [k] else []
  }

  /** `[k]` when a flag for `k` is given and the file does not hold `fileKey`. */
  function IfOnlyFlag(config: Dict, fileKey: string, k: string, given: bool): seq<string>
  {
    if given && Get(config, fileKey).None? then [k] else []
  }

  /** The keys of the merged configuration as the source's precedence rules predict them. */
  function MergedKeys(args: Args, config: Dict): seq<string>
  {
    IfInFile(config, Provider, Provider) + IfInFile(config, Model, Model)
    + IfInFile(config, MaxRetries, MaxRetries) + IfInFile(config, Timeout, Timeout)
    + IfInFile(config, UseCache, UseCache) + IfInFile(config, DefaultPromptText, Prompt)
    + IfInFile(config, DefaultTags, Tags)
    + IfOnlyFlag(config, Provider, Provider, Truthy(args.provider))
    + IfOnlyFlag(config, Model, Model, Truthy(args.model))
    + IfOnlyFlag(config, MaxRetries, MaxRetries, args.maxRetries.Some?)
    + IfOnlyFlag(config, Timeout, Timeout, args.timeout.Some?)
    + IfOnlyFlag(config, UseCache, UseCache, args.useCache || args.noCache)
    + IfOnlyFlag(config, DefaultPromptText, Prompt, Truthy(args.prompt))
    + IfOnlyFlag(config, DefaultTags, Tags, TruthyList(args.tags))
  }

  /** The file half, onto an empty dict, yields the keys the file supplies in merge order. */
  lemma FileKeyOrder(config: Dict)
    ensures Collections.Keys(WithFileValues(config, [])) ==
      IfInFile(config, Provider, Provider) + IfInFile(config, Model, Model)
      + IfInFile(config, MaxRetries, MaxRetries) + IfInFile(config, Timeout, Timeout)
      + IfInFile(config, UseCache, UseCache) + IfInFile(config, DefaultPromptText, Prompt)
      + IfInFile(config, DefaultTags, Tags)
  {
    var empty: Dict := [];
    FileValuesKeys(config, empty);
    assert Collections.Keys(empty) == [];
    FileAddsKey(config, Provider, Provider);
    FileAddsKey(config, Model, Model);
    FileAddsKey(config, MaxRetries, MaxRetries);
    FileAddsKey(config, Timeout, Timeout);
    FileAddsKey(config, UseCache, UseCache);
    FileAddsKey(config, DefaultPromptText, Prompt);
    FileAddsKey(config, DefaultTags, Tags);
    SevenParts([], IfAdded([], Provider, Get(config, Provider).Some?), IfAdded([], Model, Get(config, Model).Some?),
      IfAdded([], MaxRetries, Get(config, MaxRetries).Some?), IfAdded([], Timeout, Get(config, Timeout).Some?),
      IfAdded([], UseCache, Get(config, UseCache).Some?), IfAdded([], Prompt, Get(config, DefaultPromptText).Some?),
      IfAdded([], Tags, Get(config, DefaultTags).Some?),
      IfInFile(config, Provider, Provider), IfInFile(config, Model, Model),
      IfInFile(config, MaxRetries, MaxRetries), IfInFile(config, Timeout, Timeout),
      IfInFile(config, UseCache, UseCache), IfInFile(config, DefaultPromptText, Prompt),
      IfInFile(config, DefaultTags, Tags));
  }

  /** Seven parts equal one by one, after an empty prefix, concatenate to the same list. */
  lemma SevenParts<T>(e: seq<T>, a1: seq<T>, a2: seq<T>, a3: seq<T>, a4: seq<T>, a5: seq<T>, a6: seq<T>, a7: seq<T>,
                      b1: seq<T>, b2: seq<T>, b3: seq<T>, b4: seq<T>, b5: seq<T>, b6: seq<T>, b7: seq<T>)
    requires e == [] && a1 == b1 && a2 == b2 && a3 == b3 && a4 == b4 && a5 == b5 && a6 == b6 && a7 == b7
    ensures e + a1 + a2 + a3 + a4 + a5 + a6 + a7 == b1 + b2 + b3 + b4 + b5 + b6 + b7
  {
    assert e + a1 == b1;
  }

  /** Onto an empty dict, the file half appends `k` exactly when the file holds `fileKey`. */
  lemma FileAddsKey(config: Dict, fileKey: string, k: string)
    ensures IfAdded([], k, Get(config, fileKey).Some?) == IfInFile(config, fileKey, k)
  {
  }

  /** A flag appends its key after the file half exactly when the file did not supply it. */
  lemma FlagAfterFile(fromFile: Dict, config: Dict, fileKey: string, k: string, given: bool)
    requires Get(fromFile, k).Some? <==> Get(config, fileKey).Some?
    ensures IfAdded(fromFile, k, given) == IfOnlyFlag(config, fileKey, k, given)
  {
  }

  /** The flag half appends the keys only a flag supplies onto a dict holding the file's keys. */
  lemma FlagKeysAfterFile(args: Args, config: Dict, fromFile: Dict)
    requires Get(fromFile, Provider).Some? <==> Get(config, Provider).Some?
    requires Get(fromFile, Model).Some? <==> Get(config, Model).Some?
    requires Get(fromFile, MaxRetries).Some? <==> Get(config, MaxRetries).Some?
    requires Get(fromFile, Timeout).Some? <==> Get(config, Timeout).Some?
    requires Get(fromFile, UseCache).Some? <==> Get(config, UseCache).Some?
    requires Get(fromFile, Prompt).Some? <==> Get(config, DefaultPromptText).Some?
    requires Get(fromFile, Tags).Some? <==> Get(config, DefaultTags).Some?
    ensures Collections.Keys(WithFlags(args, fromFile)) == Collections.Keys(fromFile)
      + IfOnlyFlag(config, Provider, Provider, Truthy(args.provider))
      + IfOnlyFlag(config, Model, Model, Truthy(args.model))
      + IfOnlyFlag(config, MaxRetries, MaxRetries, args.maxRetries.Some?)
      + IfOnlyFlag(config, Timeout, Timeout, args.timeout.Some?)
      + IfOnlyFlag(config, UseCache, UseCache, args.useCache || args.noCache)
      + IfOnlyFlag(config, DefaultPromptText, Prompt, Truthy(args.prompt))
      + IfOnlyFlag(config, DefaultTags, Tags, TruthyList(args.tags))
  {
    FlagsKeys(args, fromFile);
    FlagAfterFile(fromFile, config, Provider, Provider, Truthy(args.provider));
    FlagAfterFile(fromFile, config, Model, Model, Truthy(args.model));
    FlagAfterFile(fromFile, config, MaxRetries, MaxRetries, args.maxRetries.Some?);
    FlagAfterFile(fromFile, config, Timeout, Timeout, args.timeout.Some?);
    FlagAfterFile(fromFile, config, UseCache, UseCache, args.useCache || args.noCache);
    FlagAfterFile(fromFile, config, DefaultPromptText, Prompt, Truthy(args.prompt));
    FlagAfterFile(fromFile, config, DefaultTags, Tags, TruthyList(args.tags));
  }

  /**
   * Key order of the merge: the keys the file supplies, in merge order, then
   * the keys only a flag supplies, in the same order.
   */
  lemma MergedKeyOrder(args: Args, config: Dict)
    ensures Collections.Keys(Merged(args, config)) == MergedKeys(args, config)
  {
    FileKeyOrder(config);
    FileValuesGet(config, []);
    FlagKeysAfterFile(args, config, WithFileValues(config, []));
  }

  /** No key other than the seven merged keys reaches the result. */
  lemma MergedOnlyOutputKeys(args: Args, config: Dict, k: string)
    requires Get(Merged(args, config), k).Some?
    ensures IsOutputKey(k)
  {
    GetKeys(Merged(args, config), k);
    MergedKeyOrder(args, config);
  }

  const DefaultConfigPath: string := "codecrusher.config.json"

  /** `main`'s choice of configuration file: `--config` when truthy, else the default. */
  function ConfigPath(args: Args): (path: string)
    ensures Truthy(args.config) ==> path == args.config.value
    ensures !Truthy(args.config) ==> path == DefaultConfigPath
  {
    if Truthy(args.config) then args.config.value else DefaultConfigPath
  }

  /** The type each key of the final configuration is promised to have. */
  predicate OutputOk(k: string, v: Json)
  {
    && (k == Provider ==> v in ValidProviders)
    && (k == MaxRetries || k == Timeout ==> v.JInt? || v.JBool?)
    && (k == UseCache ==> v.JBool?)
    && (k == Tags ==> v.JArray?)
  }

  /** No flag given at all. */
  predicate NoFlags(args: Args)
  {
    args.provider.None? && args.model.None? && args.maxRetries.None? && args.timeout.None?
    && !args.useCache && !args.noCache && args.prompt.None? && args.tags.None?
  }

  /**
   * Every key of a merge of validated file values with flags whose provider
   * is one of the choices is a merged key holding a value of its promised type.
   */
  lemma MergedOutputOk(args: Args, config: Dict, k: string)
    requires args.provider.Some? ==> JString(args.provider.value) in ValidProviders
    requires forall k' :: Get(config, k').Some? ==> FieldOk(k', Get(config, k').value)
    requires Get(Merged(args, config), k).Some?
    ensures IsOutputKey(k) && OutputOk(k, Get(Merged(args, config), k).value)
  {
    MergedOnlyOutputKeys(args, config, k);
    MergedValues(args, config);
    OutputOkByKey(args, config, Merged(args, config), k);
  }

  /** The case analysis behind `MergedOutputOk`, over any dict that reads like the merge. */
  lemma OutputOkByKey(args: Args, config: Dict, m: Dict, k: string)
    requires args.provider.Some? ==> JString(args.provider.value) in ValidProviders
    requires forall k' :: Get(config, k').Some? ==> FieldOk(k', Get(config, k').value)
    requires IsOutputKey(k) && Get(m, k).Some?
    requires Get(m, Provider) == (if Truthy(args.provider) then Some(JString(args.provider.value)) else Get(config, Provider))
    requires Get(m, MaxRetries) == (if args.maxRetries.Some? then Some(JInt(args.maxRetries.value)) else Get(config, MaxRetries))
    requires Get(m, Timeout) == (if args.timeout.Some? then Some(JInt(args.timeout.value)) else Get(config, Timeout))
    requires Get(m, UseCache) == (if args.noCache then Some(JBool(false)) else if args.useCache then Some(JBool(true)) else Get(config, UseCache))
    requires Get(m, Tags) == (if TruthyList(args.tags) then Some(StringArray(args.tags.value)) else Get(config, DefaultTags))
    ensures OutputOk(k, Get(m, k).value)
  {
    // The seven output keys have seven different lengths.
    assert |Provider| == 8 && |Model| == 5 && |MaxRetries| == 11 && |Timeout| == 7;
    assert |UseCache| == 9 && |Prompt| == 6 && |Tags| == 4;
    if k == Provider {
      if !Truthy(args.provider) {
        assert FieldOk(Provider, Get(config, Provider).value);
      }
    } else if k == MaxRetries {
      if args.maxRetries.None? {
        assert FieldOk(MaxRetries, Get(config, MaxRetries).value);
      }
    } else if k == Timeout {
      if args.timeout.None? {
        assert FieldOk(Timeout, Get(config, Timeout).value);
      }
    } else if k == UseCache {
      if !args.noCache && !args.useCache {
        assert FieldOk(UseCache, Get(config, UseCache).value);
      }
    } else if k == Tags {
      if !TruthyList(args.tags) {
        assert FieldOk(DefaultTags, Get(config, DefaultTags).value);
      }
    }
  }

  /** With no file values and no flags the merge is empty. */
  lemma MergedEmpty(args: Args)
    requires NoFlags(args)
    ensures Merged(args, []) == []
  {
    MergedKeyOrder(args, []);
  }

  /**
   * `main` up to printing: pick the configuration path, load it (through
   * `read`, which stands for the file system and `json.load`) and merge it
   * with the flags. The result is the merge of the flags with the validated
   * file (nothing when the file is not usable). Every key of it is one of the seven merged keys
   * and holds a value of its promised type; with no usable file and no
   * flags the result is empty.
   */
  method ResolveConfiguration(args: Args, read: string -> FileOutcome) returns (merged: Dict)
    requires args.provider.Some? ==> JString(args.provider.value) in ValidProviders
    requires read(ConfigPath(args)).Parsed? ==> DistinctKeys(read(ConfigPath(args)).config)
    ensures var file := read(ConfigPath(args));
      merged == Merged(args, if file.Parsed? then Validated(file.config) else [])
    ensures forall k :: Get(merged, k).Some? ==> IsOutputKey(k) && OutputOk(k, Get(merged, k).value)
    ensures !read(ConfigPath(args)).Parsed? && NoFlags(args) ==> merged == []
  {
    var file := read(ConfigPath(args));
    var config := LoadConfig(file);
    if file.Parsed? {
      ValidatedSpec(file.config);
    }
    merged := MergeConfigWithArgs(args, config);
    forall k | Get(merged, k).Some?
      ensures IsOutputKey(k) && OutputOk(k, Get(merged, k).value)
    {
      MergedOutputOk(args, config, k);
    }
    if !file.Parsed? && NoFlags(args) {
      MergedEmpty(args);
    }
  }
}
