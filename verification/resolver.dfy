/**
 The extractor's lookups (data_transformer.py:96-127 and the source loops of
 data_transformer.py:181-280).

 Most fields are found by a resolver that tries an ordered list of candidate keys in an
 ordered list of sources: the record itself, then its `raw_data`, then
 `raw_data._raw_excel_data`. Classes and owner use a second search over the same
 sources that takes the first present field of each source.
 */
module Resolver {
  import opened Wrappers
  import opened Values
  import opened Text
  import opened Strings

  // ---------------------------------------------------------------------------
  // sources

  /** `record.get("raw_data", {}) or {}` */
  function RawData(record: Record): (r: Value)
    ensures Truthy(Get(record, "raw_data")) ==> r == record["raw_data"]
    ensures !Truthy(Get(record, "raw_data")) ==> r == Obj(map[])
  {
    var v := Get(record, "raw_data");
    if Truthy(v) then v else Obj(map[])
  }

  /**
   The extractor calls `.get` on the raw data, so a truthy `raw_data` that is not a
   dict raises `AttributeError`; the model admits only records where it is a dict.
   */
  predicate WellFormed(record: Record) {
    RawData(record).Obj?
  }

  /** `raw_data.get("_raw_excel_data", {}) or {}`: any truthy value, not necessarily a dict. */
  function ExcelData(record: Record): (r: Value)
    requires WellFormed(record)
    ensures Truthy(r) || r == Obj(map[])
  {
    var v := Get(RawData(record).fields, "_raw_excel_data");
    if Truthy(v) then v else Obj(map[])
  }

  /** `[record, raw_data, excel_data]`, in order of precedence. */
  function Sources(record: Record): (s: seq<Value>)
    requires WellFormed(record)
    ensures |s| == 3 && s[0] == Obj(record) && s[1] == RawData(record) && s[2] == ExcelData(record)
  {
    [Obj(record), RawData(record), ExcelData(record)]
  }

  // ---------------------------------------------------------------------------
  // the candidate-key resolver

  /** The walk `value = value[k]` along a dotted key; `None` as soon as a segment is missing. */
  function Resolve(v: Value, path: seq<string>): (r: Value)
    ensures |path| > 0 && !(v.Obj? && path[0] in v.fields) ==> r == Null
    ensures |path| == 1 && v.Obj? && path[0] in v.fields ==> r == v.fields[path[0]]
    decreases |path|
  {
    if |path| == 0 then v
    else if v.Obj? && path[0] in v.fields then Resolve(v.fields[path[0]], path[1..])
    else Null
  }

  /**
   What one candidate key yields. A plain key must be present with a value that is
   neither None nor ""; a dotted key is walked segment by segment and only None is
   rejected at its end.
   */
  function Candidate(record: Record, key: string): (r: Option<Value>)
    ensures '.' !in key ==> (r.Some? <==> key in record && IsSet(record[key]))
    ensures '.' !in key && r.Some? ==> r.value == record[key]
    ensures '.' in key ==> (r.Some? <==> Resolve(Obj(record), Split(key, '.')) != Null)
    ensures '.' in key && r.Some? ==> r.value == Resolve(Obj(record), Split(key, '.'))
  {
    if '.' in key then
      var v := Resolve(Obj(record), Split(key, '.'));
      if v != Null then Some(v) else None
    else if key in record && IsSet(record[key]) then Some(record[key])
    else None
  }

  /** The first candidate, from index `k` on, that yields a value. */
  function FirstCandidate(record: Record, keys: seq<string>, k: nat): (r: Option<nat>)
    requires k <= |keys|
    ensures r.None? <==> forall i :: k <= i < |keys| ==> Candidate(record, keys[i]).None?
    ensures r.Some? ==> k <= r.value < |keys| && Candidate(record, keys[r.value]).Some?
                        && forall i :: k <= i < r.value ==> Candidate(record, keys[i]).None?
    decreases |keys| - k
  {
    if k == |keys| then None
    else if Candidate(record, keys[k]).Some? then Some(k)
    else FirstCandidate(record, keys, k + 1)
  }

  /** `_extract_field`: the value of the first candidate key, in list order, that yields one. */
  function ExtractField(record: Record, keys: seq<string>, default: Value): (r: Value)
    ensures (forall i :: 0 <= i < |keys| ==> Candidate(record, keys[i]).None?) ==> r == default
    ensures forall i :: 0 <= i < |keys| && Candidate(record, keys[i]).Some?
                        && (forall j :: 0 <= j < i ==> Candidate(record, keys[j]).None?)
                        ==> r == Candidate(record, keys[i]).value
  {
    match FirstCandidate(record, keys, 0)
    case Some(i) => Candidate(record, keys[i]).value
    case None => default
  }

  predicate NoDottedKey(keys: seq<string>) {
    forall i :: 0 <= i < |keys| ==> '.' !in keys[i]
  }

  /**
   With plain keys only, the resolver returns the value under the first key, in list
   order, that is present with a value other than None and "", and the default when
   there is none.
   */
  lemma ExtractFieldPlain(record: Record, keys: seq<string>, default: Value)
    requires NoDottedKey(keys)
    ensures var r := ExtractField(record, keys, default);
            ((forall i :: 0 <= i < |keys| ==> !(keys[i] in record && IsSet(record[keys[i]]))) && r == default)
            || (exists i :: (0 <= i < |keys| && keys[i] in record && IsSet(record[keys[i]]) && r == record[keys[i]]
                             && forall j :: 0 <= j < i ==> !(keys[j] in record && IsSet(record[keys[j]]))))
  {
    match FirstCandidate(record, keys, 0)
    case Some(i) =>
      assert keys[i] in record && IsSet(record[keys[i]]);
    case None =>
  }

  /** On a dotted key the empty string is a value: only None is rejected. */
  lemma DottedKeyKeepsEmpty(inner: Record)
    requires "b" in inner && inner["b"] == Str("")
    ensures ExtractField(map["a" := Obj(inner)], ["a.b"], Int(7)) == Str("")
  {
    SplitExample();
    assert Resolve(Obj(map["a" := Obj(inner)]), ["a", "b"]) == Str("");
  }

  lemma SplitExample()
    ensures Split("a.b", '.') == ["a", "b"]
  {
    SplitJoin(["a", "b"], '.');
    assert Join(["a", "b"], ".") == "a.b";
  }

  /** On a dotted key a missing first segment makes the candidate fail. */
  lemma DottedKeyMissingSegment(record: Record, key: string)
    requires '.' in key && Split(key, '.')[0] !in record
    ensures Candidate(record, key).None?
  {
  }

  // ---------------------------------------------------------------------------
  // several sources

  /** What one source yields: non-dicts are skipped, and the resolver's result must be set. */
  function SourceHit(source: Value, keys: seq<string>): (r: Option<Value>)
    ensures r.Some? ==> IsSet(r.value)
  {
    if source.Obj? then
      var v := ExtractField(source.fields, keys, Null);
      if IsSet(v) then Some(v) else None
    else None
  }

  /** What each source yields, in order. */
  function Hits(sources: seq<Value>, keys: seq<string>): (h: seq<Option<Value>>)
    ensures |h| == |sources|
  {
    seq(|sources|, i requires 0 <= i < |sources| => SourceHit(sources[i], keys))
  }

  /** The position of the first `Some`, from index `k` on. */
  function FirstSome(xs: seq<Option<Value>>, k: nat): (r: Option<nat>)
    requires k <= |xs|
    ensures r.None? <==> forall i :: k <= i < |xs| ==> xs[i].None?
    ensures r.Some? ==> k <= r.value < |xs| && xs[r.value].Some? && forall i :: k <= i < r.value ==> xs[i].None?
    decreases |xs| - k
  {
    if k == |xs| then None
    else if xs[k].Some? then Some(k)
    else FirstSome(xs, k + 1)
  }

  /**
   The value of the earliest `Some`, and the default when there is none: the first
   source that yields a value wins.
   */
  function Pick(xs: seq<Option<Value>>, default: Value): (r: Value)
    ensures (forall i :: 0 <= i < |xs| ==> xs[i].None?) ==> r == default
    ensures forall i :: 0 <= i < |xs| && xs[i].Some? && (forall j :: 0 <= j < i ==> xs[j].None?)
                        ==> r == xs[i].value
  {
    var k := FirstSome(xs, 0);
    if k.Some? then
      xs[k.value].value
    else default
  }

  /** `_extract_field_multisource` */
  function ExtractFieldMultisource(sources: seq<Value>, keys: seq<string>, default: Value): (r: Value)
    ensures r == default || IsSet(r)
  {
    var hits := Hits(sources, keys);
    var r := Pick(hits, default);
    assert r != default ==> exists i :: 0 <= i < |hits| && hits[i].Some? && r == hits[i].value by {
      var k := FirstSome(hits, 0);
      if k.Some? {
        assert forall j :: 0 <= j < k.value ==> hits[j].None?;
      }
    }
    r
  }

  /** A value the first source yields is the result, whatever the later sources hold. */
  lemma MultisourceFirstHit(sources: seq<Value>, keys: seq<string>, v: Value)
    requires |sources| > 0 && sources[0].Obj? && ExtractField(sources[0].fields, keys, Null) == v && IsSet(v)
    ensures ExtractFieldMultisource(sources, keys, Null) == v
  {
    var hits := Hits(sources, keys);
    assert hits[0] == Some(v);
  }

  /**
   A value found in an earlier source wins over everything in later sources, and later
   sources are consulted only when the earlier ones yield nothing.
   */
  lemma MultisourceAppend(a: seq<Value>, b: seq<Value>, keys: seq<string>, default: Value)
    ensures ExtractFieldMultisource(a + b, keys, default)
         == if FirstSome(Hits(a, keys), 0).Some? then ExtractFieldMultisource(a, keys, default)
            else ExtractFieldMultisource(b, keys, default)
  {
    var ha, hb := Hits(a, keys), Hits(b, keys);
    assert Hits(a + b, keys) == ha + hb by {
      assert forall i :: 0 <= i < |a| ==> (a + b)[i] == a[i];
      assert forall i :: |a| <= i < |a| + |b| ==> (a + b)[i] == b[i - |a|];
    }
    PickAppend(ha, hb, default);
  }

  lemma PickAppend(a: seq<Option<Value>>, b: seq<Option<Value>>, default: Value)
    ensures Pick(a + b, default) == if FirstSome(a, 0).Some? then Pick(a, default) else Pick(b, default)
  {
    FirstSomeAppend(a, b, 0);
    match FirstSome(a, 0)
    case Some(i) =>
      assert (a + b)[i] == a[i];
    case None =>
      match FirstSome(b, 0)
      case Some(j) =>
        assert (a + b)[|a| + j] == b[j];
      case None =>
  }

  function Shift(r: Option<nat>, n: nat): Option<nat> {
    match r
    case Some(i) => Some(i + n)
    case None => None
  }

  lemma {:induction false} FirstSomeAppend(a: seq<Option<Value>>, b: seq<Option<Value>>, k: nat)
    requires k <= |a|
    ensures FirstSome(a + b, k) == if FirstSome(a, k).Some? then FirstSome(a, k) else Shift(FirstSome(b, 0), |a|)
    decreases |a| - k
  {
    if k == |a| {
      FirstSomeShift(a, b, 0);
    } else {
      assert (a + b)[k] == a[k];
      FirstSomeAppend(a, b, k + 1);
    }
  }

  lemma {:induction false} FirstSomeShift(a: seq<Option<Value>>, b: seq<Option<Value>>, j: nat)
    requires j <= |b|
    ensures FirstSome(a + b, |a| + j) == Shift(FirstSome(b, j), |a|)
    decreases |b| - j
  {
    if j < |b| {
      assert (a + b)[|a| + j] == b[j];
      FirstSomeShift(a, b, j + 1);
    }
  }

  // ---------------------------------------------------------------------------
  // the search with carry-over used for classes and owner

  /**
   The loop over sources of `_extract_classes` and `_extract_owner`: in each dict source
   the first present field is taken (whatever its value), and the search stops at the
   first source where that value is truthy. A value found earlier is carried over a
   source that has none of the fields.
   */
  function SelectCarry(sources: seq<Value>, fields: seq<string>, carry: Value): Value
  {
    if |sources| == 0 then carry
    else if !sources[0].Obj? then SelectCarry(sources[1..], fields, carry)
    else
      var c := match FirstPresent(sources[0].fields, fields) case Some(v) => v case None => carry;
      if Truthy(c) then c else SelectCarry(sources[1..], fields, c)
  }

  /** The value of the first present field of a source, when that value is truthy. */
  function TruthyPresent(source: Value, fields: seq<string>): Option<Value> {
    if source.Obj? then
      match FirstPresent(source.fields, fields)
      case Some(v) => if Truthy(v) then Some(v) else None
      case None => None
    else None
  }

  /** Reference definition: the first source whose first present field is truthy. */
  function FirstTruthyPresent(sources: seq<Value>, fields: seq<string>): (r: Option<Value>)
    ensures r.Some? ==> Truthy(r.value)
  {
    if |sources| == 0 then None
    else if TruthyPresent(sources[0], fields).Some? then TruthyPresent(sources[0], fields)
    else FirstTruthyPresent(sources[1..], fields)
  }

  /**
   The carried-over value is observable only through its truthiness: when the search
   ends with a truthy value it is the first truthy present value, and otherwise there
   is none.
   */
  lemma {:induction false} SelectCarrySpec(sources: seq<Value>, fields: seq<string>, carry: Value)
    requires !Truthy(carry)
    ensures var r := SelectCarry(sources, fields, carry);
            (Truthy(r) <==> FirstTruthyPresent(sources, fields).Some?)
            && (Truthy(r) ==> r == FirstTruthyPresent(sources, fields).value)
    decreases |sources|
  {
    if |sources| > 0 {
      if !sources[0].Obj? {
        SelectCarrySpec(sources[1..], fields, carry);
      } else {
        var c := match FirstPresent(sources[0].fields, fields) case Some(v) => v case None => carry;
        if !Truthy(c) {
          SelectCarrySpec(sources[1..], fields, c);
        }
      }
    }
  }

  /** When no source holds a truthy first present field, nothing is selected. */
  lemma {:induction false} NothingPresent(sources: seq<Value>, fields: seq<string>)
    requires forall i :: 0 <= i < |sources| ==> TruthyPresent(sources[i], fields).None?
    ensures FirstTruthyPresent(sources, fields).None?
    decreases |sources|
  {
    if |sources| > 0 {
      assert forall i :: 1 <= i < |sources| ==> sources[1..][i - 1] == sources[i];
      NothingPresent(sources[1..], fields);
    }
  }

  /** A truthy first present field of the record itself is selected before any other source. */
  lemma SelectFromRecord(record: Record, fields: seq<string>, v: Value)
    requires WellFormed(record) && FirstPresent(record, fields) == Some(v) && Truthy(v)
    ensures Select(Sources(record), fields) == Some(v)
  {
    var s := Sources(record);
    assert TruthyPresent(s[0], fields) == Some(v);
  }

  /** Without raw data and without any of the fields in the record, nothing is selected. */
  lemma NoFieldSelected(record: Record, fields: seq<string>)
    requires forall i :: 0 <= i < |fields| ==> fields[i] !in record
    requires !Truthy(Get(record, "raw_data"))
    ensures WellFormed(record)
    ensures Select(Sources(record), fields).None?
  {
    var sources := Sources(record);
    assert sources[1] == Obj(map[]) && sources[2] == Obj(map[]);
    assert TruthyPresent(sources[0], fields).None?;
    assert TruthyPresent(sources[1], fields).None?;
    assert TruthyPresent(sources[2], fields).None?;
    NothingPresent(sources, fields);
  }

  /** The selection the two extractors make, started with nothing found. */
  function Select(sources: seq<Value>, fields: seq<string>): (r: Option<Value>)
    ensures r == FirstTruthyPresent(sources, fields)
  {
    SelectCarrySpec(sources, fields, Null);
    var v := SelectCarry(sources, fields, Null);
    if Truthy(v) then Some(v) else None
  }
}
