/**
 The projection of a cleaned record onto one level for tabular export
 (`DataCleaner.flatten_record`, data_cleaner.py:137-195): owner and representative
 dicts become prefixed columns, the class list becomes a comma-separated column and a
 count, the event list becomes a count and the date and type of the latest event, and
 the raw input is dropped.

 `c.get(...)` and `e.get(...)` are called on every element, `str(...)` on every truthy
 class number, and `max` compares the truthy event dates with each other; the records
 the function handles without raising, with the class numbers and dates restricted to
 the forms the model renders, are described by `Flattenable`.
 */
module Flatten {
  import opened Wrappers
  import opened Values
  import opened Strings
  import opened Dates
  import opened Transformer

  // ---------------------------------------------------------------------------
  // owner and representative columns (data_cleaner.py:144-161)

  const OwnerColumnNames: set<string> :=
    {"owner_name", "owner_address", "owner_city", "owner_state", "owner_country", "owner_postal_code"}

  const RepColumnNames: set<string> := {"rep_name", "rep_firm", "rep_address", "rep_phone", "rep_email"}

  const SummaryColumnNames: set<string> :=
    {"class_numbers", "class_count", "event_count", "latest_event_date", "latest_event_type"}

  /** The owner's six fields under their `owner_` names; a missing field is None. */
  function OwnerColumns(owner: Record): (r: Record)
    ensures r.Keys == OwnerColumnNames
    ensures r["owner_name"] == Get(owner, "name") && r["owner_address"] == Get(owner, "address")
    ensures r["owner_city"] == Get(owner, "city") && r["owner_state"] == Get(owner, "state")
    ensures r["owner_country"] == Get(owner, "country") && r["owner_postal_code"] == Get(owner, "postal_code")
  {
    map["owner_name" := Get(owner, "name"), "owner_address" := Get(owner, "address"),
        "owner_city" := Get(owner, "city"), "owner_state" := Get(owner, "state"),
        "owner_country" := Get(owner, "country"), "owner_postal_code" := Get(owner, "postal_code")]
  }

  /** The representative's five fields under their `rep_` names; a missing field is None. */
  function RepColumns(rep: Record): (r: Record)
    ensures r.Keys == RepColumnNames
    ensures r["rep_name"] == Get(rep, "name") && r["rep_firm"] == Get(rep, "firm")
    ensures r["rep_address"] == Get(rep, "address") && r["rep_phone"] == Get(rep, "phone")
    ensures r["rep_email"] == Get(rep, "email")
  {
    map["rep_name" := Get(rep, "name"), "rep_firm" := Get(rep, "firm"),
        "rep_address" := Get(rep, "address"), "rep_phone" := Get(rep, "phone"),
        "rep_email" := Get(rep, "email")]
  }

  // ---------------------------------------------------------------------------
  // class columns (data_cleaner.py:163-171)

  /** `c.get("class_number")` of a class entry. */
  function ClassNumberOf(c: Value): Value {
    if c.Obj? then Get(c.fields, "class_number") else Null
  }

  /** Every entry is a dict, and a truthy class number is an int, a bool or a string. */
  predicate ClassesFlattenable(classes: seq<Value>) {
    forall i :: 0 <= i < |classes| ==>
      classes[i].Obj? && (Truthy(ClassNumberOf(classes[i])) ==> IsIntOrStr(ClassNumberOf(classes[i])))
  }

  /** `[str(c.get("class_number", "")) for c in classes if c.get("class_number")]` */
  function ClassNumbers(classes: seq<Value>): (r: seq<string>)
    requires ClassesFlattenable(classes)
    ensures |r| <= |classes|
    ensures r == [] <==> forall i :: 0 <= i < |classes| ==> !Truthy(ClassNumberOf(classes[i]))
    ensures forall j :: 0 <= j < |r| ==> r[j] != ""
    decreases |classes|
  {
    if |classes| == 0 then []
    else
      var n := ClassNumberOf(classes[0]);
      var rest := ClassNumbers(classes[1..]);
      assert forall i :: 1 <= i < |classes| ==> ClassNumberOf(classes[i]) == ClassNumberOf(classes[1..][i - 1]);
      if Truthy(n) then [ScalarString(n)] + rest else rest
  }

  /** The numbers of a concatenation are the numbers of the parts, in order. */
  lemma {:induction false} ClassNumbersAppend(a: seq<Value>, b: seq<Value>)
    requires ClassesFlattenable(a) && ClassesFlattenable(b)
    ensures ClassesFlattenable(a + b)
    ensures ClassNumbers(a + b) == ClassNumbers(a) + ClassNumbers(b)
    decreases |a|
  {
    if |a| == 0 {
      assert a + b == b;
    } else {
      assert (a + b)[1..] == a[1..] + b;
      ClassNumbersAppend(a[1..], b);
    }
  }

  /** A single entry contributes its class number, as `str` renders it, exactly when that number is truthy. */
  lemma ClassNumbersOne(cs: seq<Value>)
    requires |cs| == 1 && ClassesFlattenable(cs)
    ensures ClassNumbers(cs) == if Truthy(ClassNumberOf(cs[0])) then [ScalarString(ClassNumberOf(cs[0]))] else []
  {
    assert cs[1..] == [];
  }

  /** `", ".join(class_numbers) if class_numbers else None`, and `len(classes)`. */
  function ClassColumns(classes: seq<Value>): (r: Record)
    requires ClassesFlattenable(classes)
    ensures r.Keys == {"class_numbers", "class_count"}
    ensures r["class_count"] == Int(|classes|)
    ensures r["class_numbers"] == Null <==> forall i :: 0 <= i < |classes| ==> !Truthy(ClassNumberOf(classes[i]))
    ensures r["class_numbers"] != Null ==> r["class_numbers"] == Str(Join(ClassNumbers(classes), ", "))
  {
    var numbers := ClassNumbers(classes);
    map["class_numbers" := if numbers == [] then Null else Str(Join(numbers, ", ")),
        "class_count" := Int(|classes|)]
  }

  /** Classes 9 and 42 give the column "9, 42" and a count of two. */
  lemma ClassColumnsExample(classes: seq<Value>)
    requires classes == [ClassEntry(Str("9"), Null), ClassEntry(Int(42), Str("software"))]
    ensures ClassesFlattenable(classes)
    ensures ClassColumns(classes) == map["class_numbers" := Str("9, 42"), "class_count" := Int(2)]
  {
    var a, b := classes[0], classes[1];
    assert classes == [a] + [b];
    assert ClassesFlattenable([a]) && ClassesFlattenable([b]);
    ClassNumbersAppend([a], [b]);
    ClassNumbersOne([a]);
    ClassNumbersOne([b]);
    assert ClassNumberOf(a) == Str("9") && ClassNumberOf(b) == Int(42);
    assert IntToString(42) == "42" by {
      assert NatToString(42) == NatToString(4) + [DigitChar(2)];
    }
    assert ClassNumbers([a]) == ["9"];
    assert ClassNumbers([b]) == ["42"];
    assert ClassNumbers(classes) == ["9", "42"];
    assert Join(["9", "42"], ", ") == "9" + ", " + Join(["42"], ", ");
    assert Join(["42"], ", ") == "42";
    assert "9" + ", " + "42" == "9, 42";
    assert ClassColumns(classes)["class_numbers"] == Str("9, 42");
  }

  // ---------------------------------------------------------------------------
  // event columns (data_cleaner.py:173-189)

  /** An event with a truthy `date`: the ones `max` looks at. */
  predicate Dated(e: Value) {
    e.Obj? && "date" in e.fields && Truthy(e.fields["date"])
  }

  /** Every event is a dict and every truthy date is a string, so the dates compare with each other. */
  predicate EventsFlattenable(events: seq<Value>) {
    forall i :: 0 <= i < |events| ==> events[i].Obj? && (Dated(events[i]) ==> events[i].fields["date"].Str?)
  }

  function DateOf(e: Value): string
    requires Dated(e) && e.fields["date"].Str?
  {
    e.fields["date"].s
  }

  /**
   `max(dated, key=date)` as Python computes it: the position of the first event whose date
   no other date exceeds, or None when no event is dated.
   */
  predicate IsFirstMax(events: seq<Value>, i: int)
    requires EventsFlattenable(events)
  {
    && 0 <= i < |events| && Dated(events[i])
    && (forall j :: 0 <= j < |events| && Dated(events[j]) ==> !StrLess(DateOf(events[i]), DateOf(events[j])))
    && (forall j :: 0 <= j < i && Dated(events[j]) ==> StrLess(DateOf(events[j]), DateOf(events[i])))
  }

  /**
   The position of the latest event. `max` walks the events left to right and replaces its
   candidate only by a strictly greater date.
   */
  function Latest(events: seq<Value>): (r: Option<nat>)
    requires EventsFlattenable(events)
    ensures r.None? <==> forall i :: 0 <= i < |events| ==> !Dated(events[i])
    ensures r.Some? ==> r.value < |events| && Dated(events[r.value])
    decreases |events|
  {
    if |events| == 0 then None
    else
      var n := |events| - 1;
      var p := events[..n];
      assert forall i :: 0 <= i < n ==> p[i] == events[i];
      var b := Latest(p);
      if Dated(events[n]) && (b.None? || StrLess(DateOf(events[b.value]), DateOf(events[n]))) then Some(n) else b
  }

  /** The walk finds the first event with a greatest date. */
  lemma {:induction false} LatestIsFirstMax(events: seq<Value>)
    requires EventsFlattenable(events)
    ensures Latest(events).Some? ==> IsFirstMax(events, Latest(events).value)
    decreases |events|
  {
    if |events| > 0 {
      var n := |events| - 1;
      var p := events[..n];
      assert forall i :: 0 <= i < n ==> p[i] == events[i];
      LatestIsFirstMax(p);
      var b := Latest(p);
      if Dated(events[n]) && (b.None? || StrLess(DateOf(events[b.value]), DateOf(events[n]))) {
        var e := DateOf(events[n]);
        forall j | 0 <= j < n && Dated(events[j])
          ensures StrLess(DateOf(events[j]), e)
        {
          var d, m := DateOf(events[j]), DateOf(events[b.value]);
          assert IsFirstMax(p, b.value);
          assert !StrLess(m, d);
          if d != m {
            StrLessTotal(d, m);
            StrLessTransitive(d, m, e);
          }
        }
        forall j | 0 <= j < |events| && Dated(events[j])
          ensures !StrLess(e, DateOf(events[j]))
        {
          if j < n {
            StrLessAsymmetric(DateOf(events[j]), e);
          } else {
            StrLessIrreflexive(e);
          }
        }
      } else if b.Some? {
        assert IsFirstMax(p, b.value);
      }
    }
  }

  /** There is only one first greatest date, so `Latest` is exactly the event `max` returns. */
  lemma FirstMaxUnique(events: seq<Value>, i: int, k: int)
    requires EventsFlattenable(events)
    requires IsFirstMax(events, i) && IsFirstMax(events, k)
    ensures i == k
  {
  }

  lemma LatestCharacterised(events: seq<Value>, i: int)
    requires EventsFlattenable(events)
    ensures Latest(events) == Some(i) <==> IsFirstMax(events, i)
  {
    LatestIsFirstMax(events);
    if IsFirstMax(events, i) {
      FirstMaxUnique(events, i, Latest(events).value);
    }
  }

  /**
   When every truthy date is a `YYYY-MM-DD` string, as the extractor produces them, the
   latest event by string order is also the latest in the calendar.
   */
  lemma LatestIsChronological(events: seq<Value>, j: int)
    requires EventsFlattenable(events)
    requires forall i :: 0 <= i < |events| && Dated(events[i]) ==> IsIsoDate(DateOf(events[i]))
    requires 0 <= j < |events| && Dated(events[j])
    ensures Latest(events).Some?
    ensures !Before(IsoDate(DateOf(events[Latest(events).value])), IsoDate(DateOf(events[j])))
  {
    LatestIsFirstMax(events);
    var a, b := DateOf(events[Latest(events).value]), DateOf(events[j]);
    IsoRoundTrip(a);
    IsoRoundTrip(b);
    RenderOrder(IsoDate(a), IsoDate(b));
  }

  /** `len(events)`, and the date and type of the latest event, or None for both. */
  function EventColumns(events: seq<Value>): (r: Record)
    requires EventsFlattenable(events)
    ensures r.Keys == {"event_count", "latest_event_date", "latest_event_type"}
    ensures r["event_count"] == Int(|events|)
    ensures (r["latest_event_date"] == Null) <==> forall i :: 0 <= i < |events| ==> !Dated(events[i])
    ensures forall i :: IsFirstMax(events, i) ==>
              r["latest_event_date"] == events[i].fields["date"] && r["latest_event_type"] == Get(events[i].fields, "type")
  {
    var latest := Latest(events);
    LatestIsFirstMax(events);
    assert forall i :: IsFirstMax(events, i) ==> latest == Some(i) by {
      forall i | IsFirstMax(events, i)
        ensures latest == Some(i)
      {
        FirstMaxUnique(events, i, latest.value);
      }
    }
    map["event_count" := Int(|events|),
        "latest_event_date" := if latest.Some? then events[latest.value].fields["date"] else Null,
        "latest_event_type" := if latest.Some? then Get(events[latest.value].fields, "type") else Null]
  }

  // ---------------------------------------------------------------------------
  // the whole record (data_cleaner.py:137-195)

  predicate Flattenable(record: Record) {
    && ("classes" in record && record["classes"].List? ==> ClassesFlattenable(record["classes"].items))
    && ("events" in record && record["events"].List? ==> EventsFlattenable(record["events"].items))
  }

  predicate OwnerDict(record: Record) {
    "owner" in record && record["owner"].Obj?
  }

  predicate RepDict(record: Record) {
    "representative" in record && record["representative"].Obj?
  }

  predicate ClassList(record: Record) {
    "classes" in record && record["classes"].List?
  }

  predicate EventList(record: Record) {
    "events" in record && record["events"].List?
  }

  /** Every key `flatten_record` may pop or delete. */
  const Popped: set<string> := {"owner", "representative", "classes", "events", "raw_data"}

  /** No added column is popped, and the three groups of columns do not overlap. */
  lemma ColumnsDisjoint()
    ensures OwnerColumnNames !! RepColumnNames && OwnerColumnNames !! SummaryColumnNames
    ensures RepColumnNames !! SummaryColumnNames
    ensures Popped !! OwnerColumnNames && Popped !! RepColumnNames && Popped !! SummaryColumnNames
  {
  }

  /** The keys `flatten_record` pops or deletes. */
  function Removed(record: Record): (r: set<string>)
    ensures "raw_data" in r && r <= Popped
  {
    (if OwnerDict(record) then {"owner"} else {})
    + (if RepDict(record) then {"representative"} else {})
    + (if ClassList(record) then {"classes"} else {})
    + (if EventList(record) then {"events"} else {})
    + {"raw_data"}
  }

  /** The keys `flatten_record` adds. */
  function Added(record: Record): set<string> {
    (if OwnerDict(record) then OwnerColumnNames else {})
    + (if RepDict(record) then RepColumnNames else {})
    + SummaryColumnNames
  }

  /** The five summary columns: class numbers and count, event count, latest date and type. */
  function SummaryColumns(record: Record): (r: Record)
    requires Flattenable(record)
    ensures r.Keys == SummaryColumnNames
    ensures r["class_count"] == Int(if ClassList(record) then |record["classes"].items| else 0)
    ensures r["event_count"] == Int(if EventList(record) then |record["events"].items| else 0)
    ensures ClassList(record) ==> r["class_numbers"] == ClassColumns(record["classes"].items)["class_numbers"]
    ensures !ClassList(record) ==> r["class_numbers"] == Null
    ensures EventList(record) ==> r["latest_event_date"] == EventColumns(record["events"].items)["latest_event_date"]
    ensures EventList(record) ==> r["latest_event_type"] == EventColumns(record["events"].items)["latest_event_type"]
    ensures !EventList(record) ==> r["latest_event_date"] == Null && r["latest_event_type"] == Null
  {
    var classes := if ClassList(record) then ClassColumns(record["classes"].items)
                   else map["class_numbers" := Null, "class_count" := Int(0)];
    var events := if EventList(record) then EventColumns(record["events"].items)
                  else map["event_count" := Int(0), "latest_event_date" := Null, "latest_event_type" := Null];
    assert "class_count" !in events && "class_numbers" !in events;
    classes + events
  }

  /** Every column `flatten_record` adds, with its value. */
  function Columns(record: Record): (r: Record)
    requires Flattenable(record)
    ensures r.Keys == Added(record)
    ensures forall k :: k in SummaryColumnNames ==> r[k] == SummaryColumns(record)[k]
    ensures OwnerDict(record) ==> forall k :: k in OwnerColumnNames ==> r[k] == OwnerColumns(record["owner"].fields)[k]
    ensures RepDict(record) ==> forall k :: k in RepColumnNames ==> r[k] == RepColumns(record["representative"].fields)[k]
  {
    var owner := if OwnerDict(record) then OwnerColumns(record["owner"].fields) else map[];
    var rep := if RepDict(record) then RepColumns(record["representative"].fields) else map[];
    ColumnsDisjoint();
    Overlay3(owner, rep, SummaryColumns(record),
             if OwnerDict(record) then OwnerColumnNames else {},
             if RepDict(record) then RepColumnNames else {},
             SummaryColumnNames)
  }

  /** Three maps over disjoint key sets laid over one another. */
  function Overlay3(a: Record, b: Record, c: Record, ka: set<string>, kb: set<string>, kc: set<string>): (r: Record)
    requires a.Keys == ka && b.Keys == kb && c.Keys == kc
    requires ka !! kb && ka !! kc && kb !! kc
    ensures r.Keys == ka + kb + kc
    ensures forall k :: k in ka ==> r[k] == a[k]
    ensures forall k :: k in kb ==> r[k] == b[k]
    ensures forall k :: k in kc ==> r[k] == c[k]
  {
    a + b + c
  }

  /**
   `flatten_record`. No added column is popped by a later step and no popped key is
   added by one, so the steps commute and the result is the remaining keys with the
   new columns laid over them.
   */
  function FlattenRecord(record: Record): (r: Record)
    requires Flattenable(record)
    ensures r.Keys == (record.Keys - Removed(record)) + Added(record)
    ensures "raw_data" !in r && (OwnerDict(record) ==> "owner" !in r) && (RepDict(record) ==> "representative" !in r)
    ensures forall k :: k in record && k !in Removed(record) && k !in Added(record) ==> r[k] == record[k]
    ensures forall k :: k in Added(record) ==> r[k] == Columns(record)[k]
  {
    ColumnsDisjoint();
    (record - Removed(record)) + Columns(record)
  }

  /** The owner's name and country end up in their columns. */
  lemma FlattenOwner(record: Record)
    requires Flattenable(record) && OwnerDict(record)
    ensures FlattenRecord(record)["owner_name"] == Get(record["owner"].fields, "name")
    ensures FlattenRecord(record)["owner_country"] == Get(record["owner"].fields, "country")
  {
    assert "owner_name" in OwnerColumnNames && "owner_country" in OwnerColumnNames;
  }

  /** The representative's phone and e-mail end up in their columns. */
  lemma FlattenRepresentative(record: Record)
    requires Flattenable(record) && RepDict(record)
    ensures FlattenRecord(record)["rep_phone"] == Get(record["representative"].fields, "phone")
    ensures FlattenRecord(record)["rep_email"] == Get(record["representative"].fields, "email")
  {
    assert "rep_phone" in RepColumnNames && "rep_email" in RepColumnNames;
  }

  /**
   The counts are the list lengths, zero when the key is missing or not a list, and the
   latest event's date is None exactly when no event has a truthy date.
   */
  lemma FlattenSummary(record: Record)
    requires Flattenable(record)
    ensures FlattenRecord(record)["class_count"] == Int(if ClassList(record) then |record["classes"].items| else 0)
    ensures FlattenRecord(record)["event_count"] == Int(if EventList(record) then |record["events"].items| else 0)
    ensures FlattenRecord(record)["latest_event_date"] == Null <==>
              !EventList(record) || forall i :: 0 <= i < |record["events"].items| ==> !Dated(record["events"].items[i])
  {
    assert "class_count" in SummaryColumnNames && "event_count" in SummaryColumnNames;
    assert "latest_event_date" in SummaryColumnNames;
  }

  /** The latest-event columns hold the date and type of the first event with a greatest date. */
  lemma FlattenLatestEvent(record: Record, i: int)
    requires Flattenable(record) && EventList(record) && IsFirstMax(record["events"].items, i)
    ensures FlattenRecord(record)["latest_event_date"] == record["events"].items[i].fields["date"]
    ensures FlattenRecord(record)["latest_event_type"] == Get(record["events"].items[i].fields, "type")
  {
    assert "latest_event_date" in SummaryColumnNames && "latest_event_type" in SummaryColumnNames;
  }
}
