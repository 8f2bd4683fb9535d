/**
 Where the extractor's output comes from: which keys of a record it reads, and which
 source wins when several hold a value (data_transformer.py:25-27, 96-127, 195-204,
 247-258, 286-292, 307-321).
 */
module Provenance {
  import opened Wrappers
  import opened Values
  import opened Dates
  import opened Resolver
  import opened Transformer

  // ---------------------------------------------------------------------------
  // precedence of sources

  /** A value the record itself yields wins over the raw data and the spreadsheet row. */
  lemma RecordWins(record: Record, keys: seq<string>, default: Value)
    requires WellFormed(record)
    requires SourceHit(Obj(record), keys).Some?
    ensures ExtractFieldMultisource(Sources(record), keys, default) == SourceHit(Obj(record), keys).value
  {
    var h := Hits(Sources(record), keys);
    assert h[0] == SourceHit(Obj(record), keys);
  }

  /** When the record yields nothing, a value from `raw_data` wins over the spreadsheet row. */
  lemma RawDataNext(record: Record, keys: seq<string>, default: Value)
    requires WellFormed(record)
    requires SourceHit(Obj(record), keys).None?
    requires SourceHit(RawData(record), keys).Some?
    ensures ExtractFieldMultisource(Sources(record), keys, default) == SourceHit(RawData(record), keys).value
  {
    var h := Hits(Sources(record), keys);
    assert h[0] == SourceHit(Obj(record), keys);
    assert h[1] == SourceHit(RawData(record), keys);
  }

  /** The spreadsheet row is consulted last, and the default only when no source yields a value. */
  lemma ExcelLast(record: Record, keys: seq<string>, default: Value)
    requires WellFormed(record)
    requires SourceHit(Obj(record), keys).None? && SourceHit(RawData(record), keys).None?
    ensures ExtractFieldMultisource(Sources(record), keys, default)
         == match SourceHit(ExcelData(record), keys) case Some(v) => v case None => default
  {
    var h := Hits(Sources(record), keys);
    assert h[0] == SourceHit(Obj(record), keys);
    assert h[1] == SourceHit(RawData(record), keys);
    assert h[2] == SourceHit(ExcelData(record), keys);
    assert forall j :: 0 <= j < 2 ==> h[j].None?;
    if h[2].None? {
      assert forall j :: 0 <= j < |h| ==> h[j].None?;
    }
  }

  // ---------------------------------------------------------------------------
  // keys the extractor never reads

  /** Changing a key outside a list of plain candidates changes no candidate. */
  lemma {:induction false} FirstCandidateFrame(m: Record, k: string, v: Value, keys: seq<string>, j: nat)
    requires NoDottedKey(keys) && k !in keys && j <= |keys|
    ensures FirstCandidate(m[k := v], keys, j) == FirstCandidate(m, keys, j)
    decreases |keys| - j
  {
    if j < |keys| {
      assert keys[j] != k && '.' !in keys[j];
      CandidateFrame(m, k, v, keys[j]);
      FirstCandidateFrame(m, k, v, keys, j + 1);
      FirstCandidateStep(m[k := v], keys, j);
      FirstCandidateStep(m, keys, j);
    }
  }

  lemma CandidateFrame(m: Record, k: string, v: Value, key: string)
    requires key != k && '.' !in key
    ensures Candidate(m[k := v], key) == Candidate(m, key)
  {
  }

  lemma FirstCandidateStep(m: Record, keys: seq<string>, j: nat)
    requires j < |keys|
    ensures FirstCandidate(m, keys, j)
         == if Candidate(m, keys[j]).Some? then Some(j) else FirstCandidate(m, keys, j + 1)
  {
  }

  lemma ExtractFieldFrame(m: Record, k: string, v: Value, keys: seq<string>, default: Value)
    requires NoDottedKey(keys) && k !in keys
    ensures ExtractField(m[k := v], keys, default) == ExtractField(m, keys, default)
  {
    FirstCandidateFrame(m, k, v, keys, 0);
    match FirstCandidate(m, keys, 0)
    case Some(i) =>
      assert keys[i] != k && '.' !in keys[i];
      assert Candidate(m[k := v], keys[i]) == Candidate(m, keys[i]);
    case None =>
  }

  /** Changing a top-level key other than `raw_data` changes only the first source. */
  lemma SourcesFrame(record: Record, k: string, v: Value)
    requires WellFormed(record) && k != "raw_data"
    ensures WellFormed(record[k := v])
    ensures Sources(record[k := v])[1..] == Sources(record)[1..]
  {
    assert Get(record[k := v], "raw_data") == Get(record, "raw_data");
  }

  lemma MultisourceFrame(record: Record, k: string, v: Value, keys: seq<string>, default: Value)
    requires WellFormed(record) && k != "raw_data"
    requires NoDottedKey(keys) && k !in keys
    ensures WellFormed(record[k := v])
    ensures ExtractFieldMultisource(Sources(record[k := v]), keys, default)
         == ExtractFieldMultisource(Sources(record), keys, default)
  {
    SourcesFrame(record, k, v);
    var s, s' := Sources(record), Sources(record[k := v]);
    ExtractFieldFrame(record, k, v, keys, Null);
    assert SourceHit(s'[0], keys) == SourceHit(s[0], keys);
    assert s'[1] == s[1] && s'[2] == s[2];
    assert Hits(s', keys) == Hits(s, keys);
  }

  lemma FirstPresentFrame(m: Record, k: string, v: Value, fields: seq<string>)
    requires k !in fields
    ensures FirstPresent(m[k := v], fields) == FirstPresent(m, fields)
  {
    match FirstPresent(m, fields)
    case Some(_) =>
    case None =>
  }

  lemma SelectFrame(record: Record, k: string, v: Value, fields: seq<string>)
    requires WellFormed(record) && k != "raw_data" && k !in fields
    ensures WellFormed(record[k := v])
    ensures Select(Sources(record[k := v]), fields) == Select(Sources(record), fields)
  {
    SourcesFrame(record, k, v);
    FirstPresentFrame(record, k, v, fields);
    var s, s' := Sources(record), Sources(record[k := v]);
    assert TruthyPresent(s'[0], fields) == TruthyPresent(s[0], fields);
  }

  /** No candidate key of the extractor contains a dot. */
  lemma PlainKeys()
    ensures NoDottedKey(RegistrationNumberKeys) && NoDottedKey(SerialNumberKeys)
    ensures NoDottedKey(RegistrationDateKeys) && NoDottedKey(ExpiryDateKeys)
    ensures NoDottedKey(StatusKeys) && NoDottedKey(MarkTextKeys) && NoDottedKey(MarkDrawingCodeKeys)
    ensures NoDottedKey(FilingDateKeys) && NoDottedKey(PublishedDateKeys) && NoDottedKey(GoodsServicesKeys)
    ensures NoDottedKey(ClassTextKeys) && NoDottedKey(CountryKeys)
  {
    PlainNumbers();
    PlainDates();
    PlainTexts();
  }

  lemma PlainNumbers()
    ensures NoDottedKey(RegistrationNumberKeys) && NoDottedKey(SerialNumberKeys)
  {
    assert NoDottedKey(RegistrationNumberKeys);
  }

  lemma PlainDates()
    ensures NoDottedKey(RegistrationDateKeys) && NoDottedKey(ExpiryDateKeys)
    ensures NoDottedKey(FilingDateKeys) && NoDottedKey(PublishedDateKeys)
  {
    assert NoDottedKey(RegistrationDateKeys);
    assert NoDottedKey(ExpiryDateKeys);
    assert NoDottedKey(FilingDateKeys);
  }

  lemma PlainTexts()
    ensures NoDottedKey(StatusKeys) && NoDottedKey(MarkTextKeys) && NoDottedKey(MarkDrawingCodeKeys)
    ensures NoDottedKey(GoodsServicesKeys) && NoDottedKey(ClassTextKeys) && NoDottedKey(CountryKeys)
  {
    assert NoDottedKey(StatusKeys);
    assert NoDottedKey(MarkTextKeys);
    assert NoDottedKey(MarkDrawingCodeKeys);
    assert NoDottedKey(GoodsServicesKeys);
    assert NoDottedKey(ClassTextKeys);
  }

  /** A key outside `ReadKeys` is in none of the lists it is made of. */
  lemma NotRead(k: string)
    requires k !in ReadKeys
    ensures k != "raw_data"
    ensures k !in RegistrationNumberKeys && k !in SerialNumberKeys && k !in RegistrationDateKeys
    ensures k !in ExpiryDateKeys && k !in StatusKeys && k !in MarkTextKeys && k !in MarkDrawingCodeKeys
    ensures k !in FilingDateKeys && k !in PublishedDateKeys && k !in GoodsServicesKeys
    ensures k !in ClassFields && k !in ClassTextKeys && k !in OwnerFields && k !in CountryKeys
    ensures k !in RepresentativeFields && k !in EventFields
  {
  }

  /**
   The extractor reads nothing of a record but the keys of `ReadKeys`: changing or adding
   any other top-level key leaves every extracted field as it was.
   */
  lemma ExtractReadsOnly(record: Record, k: string, v: Value, clock: Clock)
    requires WellFormed(record) && k !in ReadKeys
    ensures WellFormed(record[k := v])
    ensures Extract(record[k := v], clock) == Extract(record, clock)
  {
    NotRead(k);
    SourcesFrame(record, k, v);
    var x, x' := Extract(record, clock), Extract(record[k := v], clock);
    assert x'.registrationNumber == x.registrationNumber && x'.serialNumber == x.serialNumber
        && x'.status == x.status && x'.markText == x.markText && x'.markDrawingCode == x.markDrawingCode
        && x'.goodsServices == x.goodsServices by {
      LookupsFrame(record, k, v);
    }
    assert x'.registrationDate == x.registrationDate && x'.expiryDate == x.expiryDate
        && x'.filingDate == x.filingDate && x'.publishedDate == x.publishedDate by {
      DatesFrame(record, k, v);
    }
    assert x'.classes == x.classes by {
      ClassesFrame(record, k, v);
    }
    assert x'.owner == x.owner by {
      OwnerFrame(record, k, v);
    }
    assert x'.representative == x.representative by {
      FirstPresentFrame(record, k, v, RepresentativeFields);
    }
    assert x'.events == x.events by {
      FirstPresentFrame(record, k, v, EventFields);
    }
  }

  /** The plain looked-up fields do not change. */
  lemma LookupsFrame(record: Record, k: string, v: Value)
    requires WellFormed(record) && k != "raw_data"
    requires k !in RegistrationNumberKeys && k !in SerialNumberKeys && k !in StatusKeys
    requires k !in MarkTextKeys && k !in MarkDrawingCodeKeys && k !in GoodsServicesKeys
    ensures WellFormed(record[k := v])
    ensures var s, s' := Sources(record), Sources(record[k := v]);
      && ExtractFieldMultisource(s', RegistrationNumberKeys, Null) == ExtractFieldMultisource(s, RegistrationNumberKeys, Null)
      && ExtractFieldMultisource(s', SerialNumberKeys, Null) == ExtractFieldMultisource(s, SerialNumberKeys, Null)
      && ExtractFieldMultisource(s', StatusKeys, Null) == ExtractFieldMultisource(s, StatusKeys, Null)
      && ExtractFieldMultisource(s', MarkTextKeys, Null) == ExtractFieldMultisource(s, MarkTextKeys, Null)
      && ExtractFieldMultisource(s', MarkDrawingCodeKeys, Null) == ExtractFieldMultisource(s, MarkDrawingCodeKeys, Null)
      && ExtractFieldMultisource(s', GoodsServicesKeys, Null) == ExtractFieldMultisource(s, GoodsServicesKeys, Null)
  {
    PlainNumbers();
    PlainTexts();
    MultisourceFrame(record, k, v, RegistrationNumberKeys, Null);
    MultisourceFrame(record, k, v, SerialNumberKeys, Null);
    MultisourceFrame(record, k, v, StatusKeys, Null);
    MultisourceFrame(record, k, v, MarkTextKeys, Null);
    MultisourceFrame(record, k, v, MarkDrawingCodeKeys, Null);
    MultisourceFrame(record, k, v, GoodsServicesKeys, Null);
  }

  /** The looked-up dates do not change. */
  lemma DatesFrame(record: Record, k: string, v: Value)
    requires WellFormed(record) && k != "raw_data"
    requires k !in RegistrationDateKeys && k !in ExpiryDateKeys && k !in FilingDateKeys && k !in PublishedDateKeys
    ensures WellFormed(record[k := v])
    ensures var s, s' := Sources(record), Sources(record[k := v]);
      && ExtractFieldMultisource(s', RegistrationDateKeys, Null) == ExtractFieldMultisource(s, RegistrationDateKeys, Null)
      && ExtractFieldMultisource(s', ExpiryDateKeys, Null) == ExtractFieldMultisource(s, ExpiryDateKeys, Null)
      && ExtractFieldMultisource(s', FilingDateKeys, Null) == ExtractFieldMultisource(s, FilingDateKeys, Null)
      && ExtractFieldMultisource(s', PublishedDateKeys, Null) == ExtractFieldMultisource(s, PublishedDateKeys, Null)
  {
    PlainDates();
    MultisourceFrame(record, k, v, RegistrationDateKeys, Null);
    MultisourceFrame(record, k, v, ExpiryDateKeys, Null);
    MultisourceFrame(record, k, v, FilingDateKeys, Null);
    MultisourceFrame(record, k, v, PublishedDateKeys, Null);
  }

  lemma ClassesFrame(record: Record, k: string, v: Value)
    requires WellFormed(record) && k != "raw_data" && k !in ClassFields && k !in ClassTextKeys
    ensures WellFormed(record[k := v])
    ensures ExtractClasses(record[k := v]) == ExtractClasses(record)
  {
    PlainKeys();
    SelectFrame(record, k, v, ClassFields);
    MultisourceFrame(record, k, v, ClassTextKeys, Null);
  }

  lemma OwnerFrame(record: Record, k: string, v: Value)
    requires WellFormed(record) && k != "raw_data" && k !in OwnerFields && k !in CountryKeys
    ensures WellFormed(record[k := v])
    ensures ExtractOwner(record[k := v]) == ExtractOwner(record)
  {
    PlainKeys();
    SelectFrame(record, k, v, OwnerFields);
    MultisourceFrame(record, k, v, CountryKeys, Null);
  }

  /**
   A spreadsheet row copied to the top level under `_raw_excel_data` is never consulted:
   the extractor reads the row only from inside `raw_data`.
   */
  lemma TopLevelRowIgnored(record: Record, row: Value, clock: Clock)
    requires WellFormed(record)
    ensures WellFormed(record["_raw_excel_data" := row])
    ensures Extract(record["_raw_excel_data" := row], clock) == Extract(record, clock)
  {
    RowKeyNotRead("_raw_excel_data");
    ExtractReadsOnly(record, "_raw_excel_data", row, clock);
  }

  /** `_raw_excel_data` is none of the keys the extractor reads. */
  lemma RowKeyNotRead(k: string)
    requires k == "_raw_excel_data"
    ensures k !in ReadKeys
  {
    RowKeyNotInLookups(k);
    RowKeyNotInDates(k);
    RowKeyNotInFields(k);
  }

  lemma RowKeyNotInLookups(k: string)
    requires k == "_raw_excel_data"
    ensures k !in RegistrationNumberKeys && k !in SerialNumberKeys && k !in StatusKeys
    ensures k !in MarkTextKeys && k !in MarkDrawingCodeKeys && k !in GoodsServicesKeys
  {
  }

  lemma RowKeyNotInDates(k: string)
    requires k == "_raw_excel_data"
    ensures k !in RegistrationDateKeys && k !in ExpiryDateKeys && k !in FilingDateKeys && k !in PublishedDateKeys
  {
  }

  lemma RowKeyNotInFields(k: string)
    requires k == "_raw_excel_data"
    ensures k !in ClassFields && k !in ClassTextKeys && k !in OwnerFields && k !in CountryKeys
    ensures k !in RepresentativeFields && k !in EventFields && k != "raw_data"
  {
  }
}
