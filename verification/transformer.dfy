/**
 The extractor (`DataTransformer`, data_transformer.py): one raw record, from a
 spreadsheet row or an API payload, becomes a record with a fixed set of fifteen keys:
 nine looked up by the candidate-key resolver (four of them dates), the class list, the
 owner, the representative, the event list, the goods/services text, and the original
 record under `raw_data`.
 */
module Transformer {
  import opened Wrappers
  import opened Values
  import opened Text
  import opened Strings
  import opened Dates
  import opened Classes
  import opened Resolver

  // ---------------------------------------------------------------------------
  // candidate keys, in the order they are tried (data_transformer.py:32-89)

  const RegistrationNumberKeys: seq<string> :=
    ["registrationNumber", "regNumber", "registration_number", "regNum", "application_number", "Application Number"]
  const SerialNumberKeys: seq<string> :=
    ["serialNumber", "serial_number", "serialNum", "applicationNumber", "application_id", "Application Id"]
  const RegistrationDateKeys: seq<string> := ["registrationDate", "registration_date", "regDate", "registeredDate"]
  const ExpiryDateKeys: seq<string> := ["expiryDate", "expiry_date", "expirationDate", "expDate"]
  const StatusKeys: seq<string> := ["status", "markStatus", "currentStatus", "statusCode"]
  const MarkTextKeys: seq<string> := ["markText", "mark_text", "wordMark", "markDescription", "title", "Title"]
  const MarkDrawingCodeKeys: seq<string> := ["markDrawingCode", "mark_drawing_code", "drawingCode"]
  const FilingDateKeys: seq<string> :=
    ["filingDate", "filing_date", "applicationDate", "appDate", "application_date", "Application Date"]
  const PublishedDateKeys: seq<string> := ["publishedDate", "publicationDate", "pubDate"]
  const GoodsServicesKeys: seq<string> := ["goodsServices", "goods_services", "description", "goodsAndServices"]

  /** Fields that may hold the classes (data_transformer.py:189-193). */
  const ClassFields: seq<string> :=
    ["classes", "internationalClasses", "classCodes", "goodsServicesClasses", "trademarkClasses", "i_p_c", "I P C", "ipc"]
  /** Where class numbers are scanned for when no class field yields any (data_transformer.py:227). */
  const ClassTextKeys: seq<string> := ["goodsServices", "goods_services", "description"]
  const OwnerFields: seq<string> := ["owner", "applicant", "assignee", "ownerName", "applicantName"]
  const AddressFields: seq<string> := ["address", "street", "streetAddress"]
  const CountryKeys: seq<string> := ["country", "Country"]
  const RepresentativeFields: seq<string> := ["representative", "attorney", "correspondent", "lawyer", "representativeName"]
  const EventFields: seq<string> := ["events", "history", "prosecutionHistory", "statusHistory", "eventHistory"]

  /** Every top-level key the extractor reads. */
  const ReadKeys: seq<string> :=
    RegistrationNumberKeys + SerialNumberKeys + RegistrationDateKeys + ExpiryDateKeys + StatusKeys
    + MarkTextKeys + MarkDrawingCodeKeys + FilingDateKeys + PublishedDateKeys + GoodsServicesKeys
    + ClassFields + ClassTextKeys + OwnerFields + CountryKeys + RepresentativeFields + EventFields
    + ["raw_data"]

  /** The keys of a transformed record. */
  const TransformedKeys: set<string> := {
    "registration_number", "serial_number", "registration_date", "expiry_date", "status",
    "mark_text", "mark_drawing_code", "classes", "owner", "representative", "events",
    "filing_date", "published_date", "goods_services", "raw_data"
  }

  const ClassKeys: set<string> := {"class_number", "description"}
  const OwnerKeys: set<string> := {"name", "address", "city", "state", "country", "postal_code"}
  const RepresentativeKeys: set<string> := {"name", "firm", "address", "phone", "email"}
  const EventKeys: set<string> := {"date", "type", "description", "code"}

  // ---------------------------------------------------------------------------
  // shapes of the output

  /** A normalised date: None or `YYYY-MM-DD`. */
  predicate IsDateValue(v: Value) {
    v == Null || (v.Str? && IsIsoDate(v.s))
  }

  predicate IsClassEntry(v: Value) {
    v.Obj? && v.fields.Keys == ClassKeys
  }

  predicate IsOwner(v: Value) {
    v.Obj? && v.fields.Keys == OwnerKeys
  }

  /** None, or a representative with at least one truthy field. */
  predicate IsRepresentative(v: Value) {
    v == Null || (v.Obj? && v.fields.Keys == RepresentativeKeys && exists k :: k in v.fields && Truthy(v.fields[k]))
  }

  predicate IsEvent(v: Value) {
    v.Obj? && v.fields.Keys == EventKeys && IsDateValue(v.fields["date"])
  }

  // ---------------------------------------------------------------------------
  // text

  /**
   `_normalize_text`: a non-empty string has its whitespace trimmed and collapsed to
   single spaces; anything else comes back unchanged.
   */
  function NormalizeText(v: Value): (r: Value)
    ensures v.Str? && v.s != "" ==> r.Str? && Normalized(r.s) && Words(r.s) == Words(v.s)
    ensures !(v.Str? && v.s != "") ==> r == v
  {
    if v.Str? && v.s != "" then Str(NormalizeString(v.s)) else v
  }

  /** Normalising text twice is normalising it once. */
  lemma NormalizeTextIdempotent(v: Value)
    ensures NormalizeText(NormalizeText(v)) == NormalizeText(v)
  {
    if v.Str? && v.s != "" {
      NormalizeStringIdempotent(v.s);
    }
  }

  // ---------------------------------------------------------------------------
  // classes (data_transformer.py:181-233)

  function ClassEntry(number: Value, description: Value): (r: Value)
    ensures IsClassEntry(r) && r.fields["class_number"] == number && r.fields["description"] == description
  {
    Obj(map["class_number" := number, "description" := description])
  }

  /** `str(x)` for an int, a bool or a string. */
  function ScalarString(v: Value): string
    requires IsIntOrStr(v)
  {
    match v
    case Int(i) => IntToString(i)
    case Bool(b) => if b then "True" else "False"
    case Str(s) => s
  }

  /** One item of a class list: dicts and scalars give an entry, anything else is skipped. */
  function ClassItem(item: Value): (r: Option<Value>)
    ensures r.Some? <==> item.Obj? || IsIntOrStr(item)
    ensures r.Some? ==> IsClassEntry(r.value)
    ensures IsIntOrStr(item) ==> r == Some(ClassEntry(Str(ScalarString(item)), Null))
  {
    if item.Obj? then
      var m := item.fields;
      Some(ClassEntry(FirstTruthy([Get(m, "classNumber"), Get(m, "class_number"), Get(m, "code")]),
                      FirstTruthy([Get(m, "description"), Get(m, "classDescription")])))
    else if IsIntOrStr(item) then Some(ClassEntry(Str(ScalarString(item)), Null))
    else None
  }

  /** The entries of a class list, in list order. */
  function ClassesFromList(items: seq<Value>): (r: seq<Value>)
    ensures |r| <= |items|
    ensures forall i :: 0 <= i < |r| ==> IsClassEntry(r[i])
    ensures r == [] <==> forall i :: 0 <= i < |items| ==> ClassItem(items[i]).None?
  {
    if |items| == 0 then []
    else
      var rest := ClassesFromList(items[1..]);
      assert forall i :: 1 <= i < |items| ==> items[i] == items[1..][i - 1];
      match ClassItem(items[0])
      case Some(c) => [c] + rest
      case None => rest
  }

  /** The entries of a concatenation are the concatenated entries. */
  lemma {:induction false} ClassesFromListAppend(a: seq<Value>, b: seq<Value>)
    ensures ClassesFromList(a + b) == ClassesFromList(a) + ClassesFromList(b)
    decreases |a|
  {
    if |a| == 0 {
      assert a + b == b;
    } else {
      assert (a + b)[1..] == a[1..] + b;
      ClassesFromListAppend(a[1..], b);
    }
  }

  /** One entry per code, with no description. */
  function CodesToClasses(codes: seq<string>): (r: seq<Value>)
    ensures |r| == |codes|
    ensures forall i :: 0 <= i < |r| ==> IsClassEntry(r[i]) && r[i].fields["class_number"] == Str(codes[i])
                                         && r[i].fields["description"] == Null
  {
    seq(|codes|, i requires 0 <= i < |codes| => ClassEntry(Str(codes[i]), Null))
  }

  /** The classes a truthy class field holds. */
  function ClassesOf(v: Value): (r: seq<Value>)
    ensures forall i :: 0 <= i < |r| ==> IsClassEntry(r[i])
  {
    match v
    case List(items) => ClassesFromList(items)
    case Obj(m) =>
      [ClassEntry(FirstTruthy([Get(m, "classNumber"), Get(m, "class_number")]), Get(m, "description"))]
    case Str(s) => CodesToClasses(Pieces(s))
    case _ => []
  }

  /** The class numbers named in goods/services text; other values name none. */
  function ScanText(v: Value): (r: seq<string>)
    ensures forall i :: 0 <= i < |r| ==> r[i] != "" && AllDigits(r[i])
  {
    if v.Str? then ScanClasses(v.s) else []
  }

  /** `_extract_classes` */
  function ExtractClasses(record: Record): (r: seq<Value>)
    requires WellFormed(record)
    ensures forall i :: 0 <= i < |r| ==> IsClassEntry(r[i])
  {
    var sources := Sources(record);
    var found := match Select(sources, ClassFields) case Some(v) => ClassesOf(v) case None => [];
    if |found| > 0 then found
    else
      var text := ExtractFieldMultisource(sources, ClassTextKeys, Null);
      if Truthy(text) then CodesToClasses(ScanText(text)) else []
  }

  /**
   A record whose `classes` field is a `;`-separated list of codes yields one entry per
   code, in order, whatever its raw data holds.
   */
  lemma ExtractClassesFromCodes(record: Record, codes: seq<string>)
    requires WellFormed(record)
    requires |codes| > 0 && forall i :: 0 <= i < |codes| ==> IsCode(codes[i])
    requires "classes" in record && record["classes"] == Str(Join(codes, ";"))
    ensures ExtractClasses(record) == CodesToClasses(codes)
  {
    JoinNonEmpty(codes);
    ClassesFieldFirst(record);
    SelectFromRecord(record, ClassFields, record["classes"]);
    PiecesJoin(codes);
  }

  /** `classes` is the first class field tried. */
  lemma ClassesFieldFirst(record: Record)
    requires "classes" in record
    ensures FirstPresent(record, ClassFields) == Some(record["classes"])
  {
    assert ClassFields[0] == "classes";
  }

  lemma JoinNonEmpty(codes: seq<string>)
    requires |codes| > 0 && codes[0] != ""
    ensures Join(codes, ";") != ""
  {
    if |codes| > 1 {
      assert Join(codes, ";") == codes[0] + ";" + Join(codes[1..], ";");
    }
  }

  /**
   With no class field anywhere, the classes are the numbers that follow `class` in the
   goods/services text.
   */
  lemma ExtractClassesFromText(record: Record, text: string)
    requires forall i :: 0 <= i < |ClassFields| ==> ClassFields[i] !in record
    requires !Truthy(Get(record, "raw_data"))
    requires "goodsServices" in record && record["goodsServices"] == Str(text) && text != ""
    ensures WellFormed(record)
    ensures ExtractClasses(record) == CodesToClasses(ScanClasses(text))
  {
    NoFieldSelected(record, ClassFields);
    GoodsServicesFirst(record, text);
  }

  /** A non-empty `goodsServices` string of the record itself is the text that is scanned. */
  lemma GoodsServicesFirst(record: Record, text: string)
    requires WellFormed(record)
    requires "goodsServices" in record && record["goodsServices"] == Str(text) && text != ""
    ensures ExtractFieldMultisource(Sources(record), ClassTextKeys, Null) == Str(text)
  {
    assert ClassTextKeys[0] == "goodsServices";
    FirstKeyHit(record, ClassTextKeys, Str(text));
    MultisourceFirstHit(Sources(record), ClassTextKeys, Str(text));
  }

  /**
   The classes the class fields give: the entries of the value the source search selects
   (the first source whose first present class field is truthy).
   */
  function ClassesFound(record: Record): (r: seq<Value>)
    requires WellFormed(record)
    ensures forall i :: 0 <= i < |r| ==> IsClassEntry(r[i])
  {
    match FirstTruthyPresent(Sources(record), ClassFields)
    case Some(v) => ClassesOf(v)
    case None => []
  }

  /** The classes scanned for in the goods/services text the resolver finds. */
  function ClassesScanned(record: Record): (r: seq<Value>)
    requires WellFormed(record)
    ensures forall i :: 0 <= i < |r| ==> IsClassEntry(r[i])
  {
    var text := ExtractFieldMultisource(Sources(record), ClassTextKeys, Null);
    if Truthy(text) then CodesToClasses(ScanText(text)) else []
  }

  /**
   The class fields take precedence: goods/services text is scanned exactly when the
   selected class field yields no entries, or no class field is selected at all.
   */
  lemma ExtractClassesPrecedence(record: Record)
    requires WellFormed(record)
    ensures |ClassesFound(record)| > 0 ==> ExtractClasses(record) == ClassesFound(record)
    ensures |ClassesFound(record)| == 0 ==> ExtractClasses(record) == ClassesScanned(record)
  {
    var sel := Select(Sources(record), ClassFields);
    assert sel == FirstTruthyPresent(Sources(record), ClassFields);
  }

  /** A record holding a set value under the first candidate key yields that value. */
  lemma FirstKeyHit(record: Record, keys: seq<string>, v: Value)
    requires |keys| > 0 && '.' !in keys[0] && keys[0] in record && record[keys[0]] == v && IsSet(v)
    ensures ExtractField(record, keys, Null) == v
  {
    assert Candidate(record, keys[0]) == Some(v);
  }

  // ---------------------------------------------------------------------------
  // owner (data_transformer.py:235-280)

  datatype Owner = Owner(name: Value, address: Value, city: Value, state: Value, country: Value, postalCode: Value)

  const NoOwner := Owner(Null, Null, Null, Null, Null, Null)

  function OwnerValue(o: Owner): (r: Value)
    ensures IsOwner(r)
    ensures r.fields["name"] == o.name && r.fields["address"] == o.address && r.fields["city"] == o.city
    ensures r.fields["state"] == o.state && r.fields["country"] == o.country && r.fields["postal_code"] == o.postalCode
  {
    Obj(map["name" := o.name, "address" := o.address, "city" := o.city,
            "state" := o.state, "country" := o.country, "postal_code" := o.postalCode])
  }

  /** The owner fields a found owner value gives: a dict is read field by field, a string is the name. */
  function OwnerData(data: Option<Value>): (o: Owner)
    ensures data.None? ==> o == NoOwner
    ensures data.Some? && data.value.Str? ==> o == NoOwner.(name := data.value)
    ensures data.Some? && !data.value.Str? && !data.value.Obj? ==> o == NoOwner
  {
    match data
    case Some(Obj(m)) =>
      Owner(FirstTruthy([Get(m, "name"), Get(m, "ownerName"), Get(m, "applicantName")]),
            (match FirstPresent(m, AddressFields) case Some(a) => a case None => Null),
            Get(m, "city"),
            FirstTruthy([Get(m, "state"), Get(m, "stateProvince")]),
            FirstTruthy([Get(m, "country"), Get(m, "countryCode")]),
            FirstTruthy([Get(m, "postalCode"), Get(m, "postal_code"), Get(m, "zip")]))
    case Some(Str(s)) => NoOwner.(name := Str(s))
    case _ => NoOwner
  }

  /** `_extract_owner` */
  function ExtractOwner(record: Record): (r: Value)
    requires WellFormed(record)
    ensures IsOwner(r)
    ensures r.fields["name"].Str? && r.fields["name"].s != "" ==> Normalized(r.fields["name"].s)
  {
    var sources := Sources(record);
    var o := OwnerData(Select(sources, OwnerFields));
    var o1 := if Truthy(o.country) then o else o.(country := ExtractFieldMultisource(sources, CountryKeys, Null));
    var o2 := if Truthy(o1.name) then o1.(name := NormalizeText(o1.name)) else o1;
    assert !Truthy(o1.name) && o1.name.Str? ==> o1.name.s == "";
    assert NormalizeText(o1.name).Str? && NormalizeText(o1.name).s != "" ==> Normalized(NormalizeText(o1.name).s);
    OwnerValue(o2)
  }

  /**
   A record without any owner field still gets an owner, empty but for the country,
   which then comes from a `country` or `Country` key of any source.
   */
  lemma OwnerCountryFallback(record: Record)
    requires WellFormed(record)
    requires forall i :: 0 <= i < |OwnerFields| ==> OwnerFields[i] !in record
    requires !Truthy(Get(record, "raw_data"))
    ensures ExtractOwner(record) == OwnerValue(NoOwner.(country := ExtractFieldMultisource(Sources(record), CountryKeys, Null)))
  {
    var sources := Sources(record);
    assert sources[1] == Obj(map[]) && sources[2] == Obj(map[]);
    assert TruthyPresent(sources[0], OwnerFields).None?;
    assert TruthyPresent(sources[1], OwnerFields).None?;
    assert TruthyPresent(sources[2], OwnerFields).None?;
    NothingPresent(sources, OwnerFields);
  }

  /**
   An owner dict, from whichever source supplies it, is read field by field; its country is
   the first truthy of `country` and `countryCode`, and when both are falsy the country comes
   from a `country` or `Country` key of any source instead.
   */
  lemma OwnerFromDict(record: Record, m: Record)
    requires WellFormed(record)
    requires Select(Sources(record), OwnerFields) == Some(Obj(m))
    ensures var r := ExtractOwner(record).fields;
      var c := FirstTruthy([Get(m, "country"), Get(m, "countryCode")]);
      && r["country"] == (if Truthy(c) then c else ExtractFieldMultisource(Sources(record), CountryKeys, Null))
      && r["city"] == Get(m, "city")
      && r["state"] == FirstTruthy([Get(m, "state"), Get(m, "stateProvince")])
      && r["postal_code"] == FirstTruthy([Get(m, "postalCode"), Get(m, "postal_code"), Get(m, "zip")])
      && r["address"] == (match FirstPresent(m, AddressFields) case Some(a) => a case None => Null)
  {
  }

  /** The same for a non-empty owner dict held by the first owner field present in the record itself. */
  lemma OwnerDictInRecord(record: Record, m: Record)
    requires WellFormed(record)
    requires FirstPresent(record, OwnerFields) == Some(Obj(m)) && m != map[]
    ensures var c := FirstTruthy([Get(m, "country"), Get(m, "countryCode")]);
      ExtractOwner(record).fields["country"]
        == if Truthy(c) then c else ExtractFieldMultisource(Sources(record), CountryKeys, Null)
  {
    SelectFromRecord(record, OwnerFields, Obj(m));
    OwnerFromDict(record, m);
  }

  /** An owner given as a plain string in the record becomes the owner's normalised name. */
  lemma OwnerFromString(record: Record, s: string)
    requires WellFormed(record)
    requires "owner" in record && record["owner"] == Str(s) && s != ""
    ensures ExtractOwner(record).fields["name"] == Str(NormalizeString(s))
  {
    var sources := Sources(record);
    assert FirstPresent(record, OwnerFields) == Some(Str(s));
    assert Select(sources, OwnerFields) == Some(Str(s));
  }

  // ---------------------------------------------------------------------------
  // representative (data_transformer.py:282-301)

  /** `_extract_representative`: read from the record only, and only from a dict. */
  function ExtractRepresentative(record: Record): (r: Value)
    ensures IsRepresentative(r)
    ensures r != Null ==> exists i :: 0 <= i < |RepresentativeFields| && RepresentativeFields[i] in record
                                      && record[RepresentativeFields[i]].Obj?
  {
    match FirstPresent(record, RepresentativeFields)
    case Some(Obj(m)) =>
      var rep := map["name" := FirstTruthy([Get(m, "name"), Get(m, "attorneyName")]),
                     "firm" := FirstTruthy([Get(m, "firm"), Get(m, "lawFirm")]),
                     "address" := Get(m, "address"),
                     "phone" := FirstTruthy([Get(m, "phone"), Get(m, "telephone")]),
                     "email" := Get(m, "email")];
      if Truthy(rep["name"]) || Truthy(rep["firm"]) || Truthy(rep["address"]) || Truthy(rep["phone"]) || Truthy(rep["email"])
      then Obj(rep) else Null
    case _ => Null
  }

  /**
   Only a dict is read: when the first representative field present holds anything
   else (a plain name string, say) there is no representative, whatever later fields hold.
   */
  lemma RepresentativeNeedsDict(record: Record, i: nat)
    requires i < |RepresentativeFields| && RepresentativeFields[i] in record
    requires !record[RepresentativeFields[i]].Obj?
    requires forall j :: 0 <= j < i ==> RepresentativeFields[j] !in record
    ensures ExtractRepresentative(record) == Null
  {
    FirstPresentAt(record, RepresentativeFields, i);
  }

  /**
   A dict in the first representative field present gives a representative exactly when
   one of its eight source keys holds a truthy value, and then each of the five fields is
   the first truthy value among its source keys (the last one's value when none is truthy).
   */
  lemma RepresentativeFromDict(record: Record, i: nat, m: Record)
    requires i < |RepresentativeFields| && RepresentativeFields[i] in record
    requires record[RepresentativeFields[i]] == Obj(m)
    requires forall j :: 0 <= j < i ==> RepresentativeFields[j] !in record
    ensures var r := ExtractRepresentative(record);
      r != Null <==> (Truthy(Get(m, "name")) || Truthy(Get(m, "attorneyName")) || Truthy(Get(m, "firm"))
                      || Truthy(Get(m, "lawFirm")) || Truthy(Get(m, "address")) || Truthy(Get(m, "phone"))
                      || Truthy(Get(m, "telephone")) || Truthy(Get(m, "email")))
    ensures var r := ExtractRepresentative(record);
      r != Null ==>
        && r.Obj? && r.fields.Keys == RepresentativeKeys
        && r.fields["name"] == FirstTruthy([Get(m, "name"), Get(m, "attorneyName")])
        && r.fields["firm"] == FirstTruthy([Get(m, "firm"), Get(m, "lawFirm")])
        && r.fields["address"] == Get(m, "address")
        && r.fields["phone"] == FirstTruthy([Get(m, "phone"), Get(m, "telephone")])
        && r.fields["email"] == Get(m, "email")
  {
    FirstPresentAt(record, RepresentativeFields, i);
    FirstTruthyTwo(Get(m, "name"), Get(m, "attorneyName"));
    FirstTruthyTwo(Get(m, "firm"), Get(m, "lawFirm"));
    FirstTruthyTwo(Get(m, "phone"), Get(m, "telephone"));
  }

  lemma FirstTruthyTwo(a: Value, b: Value)
    ensures Truthy(FirstTruthy([a, b])) <==> Truthy(a) || Truthy(b)
  {
    assert [a, b][0] == a && [a, b][1] == b;
  }

  /** The first present field, located. */
  lemma {:induction false} FirstPresentAt(m: Record, fields: seq<string>, i: nat)
    requires i < |fields| && fields[i] in m
    requires forall j :: 0 <= j < i ==> fields[j] !in m
    ensures FirstPresent(m, fields) == Some(m[fields[i]])
    decreases i
  {
    if i > 0 {
      FirstPresentAt(m, fields[1..], i - 1);
    }
  }

  // ---------------------------------------------------------------------------
  // events (data_transformer.py:303-323)

  /** The event dict with its four keys. */
  function EventValue(date: Value, kind: Value, description: Value, code: Value): (r: Value)
    requires IsDateValue(date)
    ensures IsEvent(r)
    ensures r.fields["date"] == date && r.fields["type"] == kind
    ensures r.fields["description"] == description && r.fields["code"] == code
  {
    Obj(map["date" := date, "type" := kind, "description" := description, "code" := code])
  }

  function EventEntry(m: Record, clock: Clock): (r: Value)
    ensures IsEvent(r)
  {
    EventValue(NormalizeDate(FirstTruthy([Get(m, "date"), Get(m, "eventDate")]), clock),
               FirstTruthy([Get(m, "type"), Get(m, "eventType"), Get(m, "code")]),
               FirstTruthy([Get(m, "description"), Get(m, "eventDescription")]),
               FirstTruthy([Get(m, "code"), Get(m, "eventCode")]))
  }

  /** The events of an event list: one per dict item, in order; other items are skipped. */
  function EventsFrom(items: seq<Value>, clock: Clock): (r: seq<Value>)
    ensures |r| <= |items|
    ensures forall i :: 0 <= i < |r| ==> IsEvent(r[i])
    ensures r == [] <==> forall i :: 0 <= i < |items| ==> !items[i].Obj?
  {
    if |items| == 0 then []
    else
      var rest := EventsFrom(items[1..], clock);
      assert forall i :: 1 <= i < |items| ==> items[i] == items[1..][i - 1];
      if items[0].Obj? then [EventEntry(items[0].fields, clock)] + rest else rest
  }

  /** The events of a concatenation are the concatenated events. */
  lemma {:induction false} EventsFromAppend(a: seq<Value>, b: seq<Value>, clock: Clock)
    ensures EventsFrom(a + b, clock) == EventsFrom(a, clock) + EventsFrom(b, clock)
    decreases |a|
  {
    if |a| == 0 {
      assert a + b == b;
    } else {
      assert (a + b)[1..] == a[1..] + b;
      EventsFromAppend(a[1..], b, clock);
    }
  }

  /** `_extract_events`: only the first event field present is read, and only a list. */
  function ExtractEvents(record: Record, clock: Clock): (r: seq<Value>)
    ensures forall i :: 0 <= i < |r| ==> IsEvent(r[i])
    ensures r != [] ==> exists i :: 0 <= i < |EventFields| && EventFields[i] in record && record[EventFields[i]].List?
  {
    match FirstPresent(record, EventFields)
    case Some(List(items)) => EventsFrom(items, clock)
    case _ => []
  }

  /** A first event field that is not a list hides every later one. */
  lemma EventsNeedList(record: Record, i: nat, clock: Clock)
    requires i < |EventFields| && EventFields[i] in record && !record[EventFields[i]].List?
    requires forall j :: 0 <= j < i ==> EventFields[j] !in record
    ensures ExtractEvents(record, clock) == []
  {
    FirstPresentAt(record, EventFields, i);
  }

  // ---------------------------------------------------------------------------
  // the whole record (data_transformer.py:14-94, 336-339)

  /** Everything the extractor derives from a record, field by field. */
  datatype Extraction = Extraction(
    registrationNumber: Value, serialNumber: Value, registrationDate: Value, expiryDate: Value,
    status: Value, markText: Value, markDrawingCode: Value, classes: Value, owner: Value,
    representative: Value, events: Value, filingDate: Value, publishedDate: Value, goodsServices: Value)

  /** The transformed dict: the extracted fields under their output keys, and the original record. */
  function AsRecord(x: Extraction, raw: Value): (r: Record)
    ensures r.Keys == TransformedKeys
    ensures r["registration_number"] == x.registrationNumber && r["serial_number"] == x.serialNumber
    ensures r["registration_date"] == x.registrationDate && r["expiry_date"] == x.expiryDate
    ensures r["status"] == x.status && r["mark_text"] == x.markText && r["mark_drawing_code"] == x.markDrawingCode
    ensures r["classes"] == x.classes && r["owner"] == x.owner && r["representative"] == x.representative
    ensures r["events"] == x.events && r["filing_date"] == x.filingDate && r["published_date"] == x.publishedDate
    ensures r["goods_services"] == x.goodsServices && r["raw_data"] == raw
  {
    map["registration_number" := x.registrationNumber, "serial_number" := x.serialNumber,
        "registration_date" := x.registrationDate, "expiry_date" := x.expiryDate,
        "status" := x.status, "mark_text" := x.markText, "mark_drawing_code" := x.markDrawingCode,
        "classes" := x.classes, "owner" := x.owner, "representative" := x.representative,
        "events" := x.events, "filing_date" := x.filingDate, "published_date" := x.publishedDate,
        "goods_services" := x.goodsServices, "raw_data" := raw]
  }

  function Extract(record: Record, clock: Clock): Extraction
    requires WellFormed(record)
  {
    var s := Sources(record);
    Extraction(
      ExtractFieldMultisource(s, RegistrationNumberKeys, Null),
      ExtractFieldMultisource(s, SerialNumberKeys, Null),
      NormalizeDate(ExtractFieldMultisource(s, RegistrationDateKeys, Null), clock),
      NormalizeDate(ExtractFieldMultisource(s, ExpiryDateKeys, Null), clock),
      ExtractFieldMultisource(s, StatusKeys, Null),
      ExtractFieldMultisource(s, MarkTextKeys, Null),
      ExtractFieldMultisource(s, MarkDrawingCodeKeys, Null),
      List(ExtractClasses(record)),
      ExtractOwner(record),
      ExtractRepresentative(record),
      List(ExtractEvents(record, clock)),
      NormalizeDate(ExtractFieldMultisource(s, FilingDateKeys, Null), clock),
      NormalizeDate(ExtractFieldMultisource(s, PublishedDateKeys, Null), clock),
      ExtractFieldMultisource(s, GoodsServicesKeys, Null))
  }

  /** `transform_trademark` */
  function TransformTrademark(record: Record, clock: Clock): (r: Record)
    requires WellFormed(record)
    ensures r.Keys == TransformedKeys
    ensures r["raw_data"] == Obj(record)
  {
    AsRecord(Extract(record, clock), Obj(record))
  }

  /** The shape every extraction has, whatever the input. */
  predicate WellShaped(x: Extraction) {
    && IsDateValue(x.registrationDate) && IsDateValue(x.expiryDate)
    && IsDateValue(x.filingDate) && IsDateValue(x.publishedDate)
    && (x.registrationNumber == Null || IsSet(x.registrationNumber))
    && (x.serialNumber == Null || IsSet(x.serialNumber))
    && (x.status == Null || IsSet(x.status))
    && (x.markText == Null || IsSet(x.markText))
    && (x.markDrawingCode == Null || IsSet(x.markDrawingCode))
    && (x.goodsServices == Null || IsSet(x.goodsServices))
    && x.classes.List? && (forall i :: 0 <= i < |x.classes.items| ==> IsClassEntry(x.classes.items[i]))
    && IsOwner(x.owner)
    && IsRepresentative(x.representative)
    && x.events.List? && (forall i :: 0 <= i < |x.events.items| ==> IsEvent(x.events.items[i]))
  }

  /**
   Every transformed record has four dates that are None or `YYYY-MM-DD`, looked-up
   fields that are None or set, a list of class entries, an owner with its six keys, a
   representative that is None or has a truthy field, and a list of events.
   */
  lemma TransformShape(record: Record, clock: Clock)
    requires WellFormed(record)
    ensures WellShaped(Extract(record, clock))
  {
  }

  /** `transform_batch`: one transformed record per input record, in order. */
  function TransformBatch(records: seq<Record>, clock: Clock): (r: seq<Record>)
    requires forall i :: 0 <= i < |records| ==> WellFormed(records[i])
    ensures |r| == |records|
    ensures forall i :: 0 <= i < |r| ==> r[i].Keys == TransformedKeys && r[i]["raw_data"] == Obj(records[i])
  {
    seq(|records|, i requires 0 <= i < |records| => TransformTrademark(records[i], clock))
  }
}
