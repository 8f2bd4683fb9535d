/**
 The normaliser (`DataCleaner`, data_cleaner.py:9-134): whitespace of text fields is
 collapsed, one trailing legal-form word is dropped from owner names, state, country and
 postal code are upper-cased, phone numbers keep only digits and `+`, e-mail addresses
 are lower-cased, and every required key is filled in.

 The Python code calls string methods on some fields without checking their type; the
 records it accepts without raising are described by `Cleanable`.
 */
module Cleaner {
  import opened Wrappers
  import opened Values
  import opened Text
  import opened Strings
  import opened Transformer

  // ---------------------------------------------------------------------------
  // legal-form suffix (data_cleaner.py:41-42)

  /**
   The words the pattern `\s+(Inc\.?|LLC|L\.L\.C\.?|Corp\.?|Corporation|Ltd\.?|Limited)$`
   accepts after the whitespace, in lower case (the pattern ignores case).
   */
  const LegalSuffixes: seq<string> :=
    ["inc", "inc.", "llc", "l.l.c", "l.l.c.", "corp", "corp.", "corporation", "ltd", "ltd.", "limited"]

  predicate IsLegalSuffix(w: string) {
    Lower(w) in LegalSuffixes
  }

  /** Position of the last space. */
  function LastSpace(s: string): (r: Option<nat>)
    ensures r.None? <==> ' ' !in s
    ensures r.Some? ==> r.value < |s| && s[r.value] == ' ' && ' ' !in s[r.value + 1..]
    decreases |s|
  {
    if |s| == 0 then None
    else if s[|s| - 1] == ' ' then Some(|s| - 1)
    else
      var t := s[..|s| - 1];
      assert s == t + [s[|s| - 1]];
      var r := LastSpace(t);
      if r.Some? then
        assert s[r.value + 1..] == t[r.value + 1..] + [s[|s| - 1]];
        r
      else r
  }

  /**
   The suffix substitution on normalised text. A match must start at whitespace and run
   to the end of the text, and the accepted words contain no whitespace, so the only
   candidate is the last word; when it is a legal form it is removed together with the
   space before it.
   */
  function StripLegalSuffix(s: string): (r: string)
    requires Normalized(s)
    ensures Normalized(r)
    ensures |r| <= |s| && r == s[..|r|]
  {
    match LastSpace(s)
    case Some(j) =>
      if IsLegalSuffix(s[j + 1..]) then
        NormalizedBeforeSpace(s, j);
        s[..j]
      else s
    case None => s
  }

  /** The text before a space of normalised text is normalised. */
  lemma NormalizedBeforeSpace(s: string, j: nat)
    requires Normalized(s) && j < |s| && s[j] == ' '
    ensures Normalized(s[..j])
  {
    var p := s[..j];
    forall i, k {:trigger p[i], p[k]} | 0 <= i < |p| && k == i + 1 && k < |p|
      ensures !(IsSpace(p[i]) && IsSpace(p[k]))
    {
      assert p[i] == s[i] && p[k] == s[k];
    }
  }

  /** A legal-form word after the last space is removed with the space. */
  lemma StripLegalSuffixRemoves(base: string, word: string)
    requires Normalized(base) && base != ""
    requires word != "" && NoSpace(word) && IsLegalSuffix(word)
    ensures Normalized(base + " " + word)
    ensures StripLegalSuffix(base + " " + word) == base
  {
    var s := base + " " + word;
    JoinWordNormalized(base, word);
    assert s[|base|] == ' ';
    assert s[|base| + 1..] == word;
    LastSpaceAt(s, |base|);
    assert s[..|base|] == base;
  }

  /** Any other last word stays. */
  lemma StripLegalSuffixKeeps(base: string, word: string)
    requires Normalized(base) && base != ""
    requires word != "" && NoSpace(word) && !IsLegalSuffix(word)
    ensures Normalized(base + " " + word)
    ensures StripLegalSuffix(base + " " + word) == base + " " + word
  {
    var s := base + " " + word;
    JoinWordNormalized(base, word);
    assert s[|base| + 1..] == word;
    LastSpaceAt(s, |base|);
  }

  /** A single word is never removed, legal form or not: the pattern needs whitespace before it. */
  lemma StripLegalSuffixSingleWord(word: string)
    requires NoSpace(word)
    ensures Normalized(word)
    ensures StripLegalSuffix(word) == word
  {
    NoSpaceNoBlank(word);
  }

  lemma LastSpaceAt(s: string, j: nat)
    requires j < |s| && s[j] == ' ' && ' ' !in s[j + 1..]
    ensures LastSpace(s) == Some(j)
  {
    var r := LastSpace(s);
    assert r.Some?;
  }

  lemma NoSpaceNoBlank(word: string)
    requires NoSpace(word)
    ensures ' ' !in word
  {
    assert IsSpace(' ');
  }

  lemma JoinWordNormalized(base: string, word: string)
    requires Normalized(base) && base != ""
    requires word != "" && NoSpace(word)
    ensures Normalized(base + " " + word)
    ensures ' ' !in word
  {
    var s := base + " " + word;
    NoSpaceNoBlank(word);
    forall i | 0 <= i < |s| && IsSpace(s[i])
      ensures s[i] == ' '
    {
      if i < |base| {
        assert s[i] == base[i];
      }
    }
    forall i, k {:trigger s[i], s[k]} | 0 <= i < |s| && k == i + 1 && k < |s|
      ensures !(IsSpace(s[i]) && IsSpace(s[k]))
    {
      if k < |base| {
        assert s[i] == base[i] && s[k] == base[k];
      } else if k == |base| {
        assert s[i] == base[|base| - 1];
      } else if i == |base| {
        assert s[k] == word[0];
      } else {
        assert s[k] == word[k - |base| - 1];
      }
    }
    assert s[|s| - 1] == word[|word| - 1];
  }

  /** The owner name: whitespace normalised, then one trailing legal form dropped. */
  function CleanName(name: string): (r: string)
    ensures Normalized(r)
  {
    StripLegalSuffix(NormalizeString(name))
  }

  // ---------------------------------------------------------------------------
  // field-level transforms

  /** `v.strip().upper()` on a string value. */
  function StripUpperValue(v: Value): (r: Value)
    ensures v.Str? ==> r.Str? && HasNoLower(r.s) && Strip(r.s) == r.s && Upper(r.s) == r.s
    ensures !v.Str? ==> r == v
  {
    if v.Str? then Str(StripUpper(v.s)) else v
  }

  /** `v.strip().lower()` on a string value. */
  function StripLowerValue(v: Value): (r: Value)
    ensures v.Str? ==> r.Str? && HasNoUpper(r.s) && Strip(r.s) == r.s && Lower(r.s) == r.s
    ensures !v.Str? ==> r == v
  {
    if v.Str? then Str(StripLower(v.s)) else v
  }

  predicate IsDialChar(c: char) {
    IsDigit(c) || c == '+'
  }

  /** `re.sub(r'[^\d+]', '', s)`: the digits and plus signs of `s`, in order. */
  function DialChars(s: string): (r: string)
    ensures |r| <= |s|
    ensures forall i :: 0 <= i < |r| ==> IsDialChar(r[i])
    ensures (forall i :: 0 <= i < |s| ==> IsDialChar(s[i])) ==> r == s
  {
    if |s| == 0 then ""
    else
      var rest := DialChars(s[1..]);
      if IsDialChar(s[0]) then
        assert s == [s[0]] + s[1..];
        [s[0]] + rest
      else rest
  }

  /** Only digits and plus signs survive: exactly the strings made of them are unchanged. */
  lemma {:induction false} DialCharsFixed(s: string)
    ensures DialChars(s) == s <==> forall i :: 0 <= i < |s| ==> IsDialChar(s[i])
    decreases |s|
  {
    if |s| > 0 && !IsDialChar(s[0]) {
      assert |DialChars(s)| <= |s[1..]| < |s|;
    } else if |s| > 0 {
      DialCharsFixed(s[1..]);
      if DialChars(s) == s {
        assert DialChars(s[1..]) == s[1..];
        forall i | 0 <= i < |s|
          ensures IsDialChar(s[i])
        {
          if i > 0 {
            assert s[i] == s[1..][i - 1];
          }
        }
      }
    }
  }

  function PhoneValue(v: Value): (r: Value)
    ensures v.Str? ==> r.Str? && DialChars(r.s) == r.s
    ensures !v.Str? ==> r == v
  {
    if v.Str? then
      DialCharsFixed(DialChars(v.s));
      Str(DialChars(v.s))
    else v
  }

  function NameValue(v: Value): (r: Value)
    ensures v.Str? ==> r.Str? && Normalized(r.s)
    ensures !v.Str? ==> r == v
  {
    if v.Str? then Str(CleanName(v.s)) else v
  }

  // ---------------------------------------------------------------------------
  // owner and representative (data_cleaner.py:31-79)

  predicate TruthyAt(m: Record, k: string) {
    k in m && Truthy(m[k])
  }

  /** The owner fields the cleaner calls string methods on are strings whenever they are truthy. */
  predicate OwnerCleanable(owner: Record) {
    && (TruthyAt(owner, "name") ==> owner["name"].Str?)
    && (TruthyAt(owner, "state") ==> owner["state"].Str?)
    && (TruthyAt(owner, "country") ==> owner["country"].Str?)
    && (TruthyAt(owner, "postal_code") ==> owner["postal_code"].Str?)
  }

  /** `_clean_owner` */
  function CleanOwner(owner: Record): (r: Record)
    requires OwnerCleanable(owner)
    ensures r.Keys == owner.Keys
    ensures forall k :: k in owner && (k !in OwnerKeys || !Truthy(owner[k])) ==> r[k] == owner[k]
    ensures TruthyAt(owner, "name") ==> r["name"] == Str(CleanName(owner["name"].s))
    ensures TruthyAt(owner, "address") ==> r["address"] == NormalizeText(owner["address"])
    ensures TruthyAt(owner, "city") ==> r["city"] == NormalizeText(owner["city"])
    ensures UpperCleaned(owner, r, "state") && UpperCleaned(owner, r, "country")
    ensures UpperCleaned(owner, r, "postal_code")
  {
    var r := map k | k in owner :: if Truthy(owner[k]) then OwnerField(k, owner[k]) else owner[k];
    r
  }

  /** A truthy string field of `before` is stripped and upper-cased in `after`. */
  predicate UpperCleaned(before: Record, after: Record, k: string) {
    TruthyAt(before, k) && before[k].Str? ==>
      && k in after && after[k].Str? && HasNoLower(after[k].s) && Strip(after[k].s) == after[k].s
      && Upper(Strip(before[k].s)) == after[k].s
  }

  /**
   What the owner cleaner does to one truthy field. Each field is tested and rewritten
   on its own, so the sequence of `if` statements is a per-field map.
   */
  function OwnerField(k: string, v: Value): Value {
    if k == "name" then NameValue(v)
    else if k == "address" || k == "city" then NormalizeText(v)
    else if k == "state" || k == "country" || k == "postal_code" then StripUpperValue(v)
    else v
  }

  predicate RepresentativeCleanable(rep: Record) {
    && (TruthyAt(rep, "phone") ==> rep["phone"].Str?)
    && (TruthyAt(rep, "email") ==> rep["email"].Str?)
  }

  /** `_clean_representative` */
  function CleanRepresentative(rep: Record): (r: Record)
    requires RepresentativeCleanable(rep)
    ensures r.Keys == rep.Keys
    ensures forall k :: k in rep && (k !in RepresentativeKeys || !Truthy(rep[k])) ==> r[k] == rep[k]
    ensures forall k :: k in ["name", "firm", "address"] && TruthyAt(rep, k) ==> r[k] == NormalizeText(rep[k])
    ensures TruthyAt(rep, "phone") ==> r["phone"] == Str(DialChars(rep["phone"].s))
    ensures TruthyAt(rep, "email") ==> r["email"].Str? && HasNoUpper(r["email"].s)
                                       && r["email"].s == Lower(Strip(rep["email"].s))
  {
    map k | k in rep :: if Truthy(rep[k]) then RepresentativeField(k, rep[k]) else rep[k]
  }

  /** What the representative cleaner does to one truthy field. */
  function RepresentativeField(k: string, v: Value): Value {
    if k == "name" || k == "firm" || k == "address" then NormalizeText(v)
    else if k == "phone" then PhoneValue(v)
    else if k == "email" then StripLowerValue(v)
    else v
  }

  // ---------------------------------------------------------------------------
  // required fields (data_cleaner.py:88-129)

  const EmptyOwner: Record :=
    map["name" := Null, "address" := Null, "city" := Null, "state" := Null, "country" := Null, "postal_code" := Null]

  /** The fourteen keys every cleaned record has, with their defaults. */
  const Required: Record := map[
    "registration_number" := Null, "serial_number" := Null, "registration_date" := Null,
    "expiry_date" := Null, "status" := Null, "mark_text" := Null, "mark_drawing_code" := Null,
    "classes" := List([]), "owner" := Obj(EmptyOwner), "representative" := Null, "events" := List([]),
    "filing_date" := Null, "published_date" := Null, "goods_services" := Null]

  /** `{**required_structure["owner"], **record["owner"]}` needs a dict when the owner is truthy. */
  predicate OwnerIsDict(record: Record) {
    TruthyAt(record, "owner") ==> record["owner"].Obj?
  }

  /** `_ensure_required_fields` */
  function EnsureRequiredFields(record: Record): (r: Record)
    requires OwnerIsDict(record)
    ensures r.Keys == record.Keys + Required.Keys
    ensures forall k :: k in record && k !in {"owner", "classes", "events"} ==> r[k] == record[k]
    ensures forall k :: k in Required && k !in record && k !in {"owner", "classes", "events"} ==> r[k] == Required[k]
    ensures r["owner"].Obj? && OwnerKeys <= r["owner"].fields.Keys
    ensures r["owner"] == if TruthyAt(record, "owner") then Obj(EmptyOwner + record["owner"].fields) else Obj(EmptyOwner)
    ensures r["classes"].List? && r["events"].List?
    ensures "classes" in record && record["classes"].List? ==> r["classes"] == record["classes"]
    ensures "events" in record && record["events"].List? ==> r["events"] == record["events"]
    ensures !("classes" in record && record["classes"].List?) ==> r["classes"] == List([])
    ensures !("events" in record && record["events"].List?) ==> r["events"] == List([])
  {
    RequiredShape();
    FillIn(Required, record, MergedOwner(record), "owner", "classes", "events")
  }

  /** The defaults hold the three keys the filler overrides, with list defaults for the lists. */
  lemma RequiredShape()
    ensures "owner" in Required && "classes" in Required && "events" in Required
    ensures Required["classes"] == List([]) && Required["events"] == List([])
    ensures "owner" != "classes" && "owner" != "events" && "classes" != "events"
  {
  }

  /** The owner the filler installs: the owner template overlaid with the record's truthy owner. */
  function MergedOwner(record: Record): (o: Value)
    requires OwnerIsDict(record)
    ensures o.Obj? && EmptyOwner.Keys <= o.fields.Keys && Truthy(o)
    ensures EmptyOwner + o.fields == o.fields
    ensures OwnerKeys <= o.fields.Keys
    ensures TruthyAt(record, "owner") ==> o.fields == EmptyOwner + record["owner"].fields
    ensures !TruthyAt(record, "owner") ==> o.fields == EmptyOwner
  {
    if TruthyAt(record, "owner") then
      MergeTwice(EmptyOwner, record["owner"].fields);
      assert "name" in EmptyOwner + record["owner"].fields;
      Obj(EmptyOwner + record["owner"].fields)
    else
      MergeSelf(EmptyOwner);
      assert "name" in EmptyOwner;
      Obj(EmptyOwner)
  }

  /** Replaces the value at `k` with an empty list unless it already is a list. */
  function ListAt(m: Record, k: string): (r: Record)
    requires k in m
    ensures r.Keys == m.Keys && r[k].List?
    ensures forall j :: j in m && j != k ==> r[j] == m[j]
    ensures m[k].List? ==> r[k] == m[k]
  {
    if m[k].List? then m else m[k := List([])]
  }

  /**
   * `_ensure_required_fields` over any defaults, owner value and three distinct keys: the
   * record overlays the defaults, the owner key gets `owner`, and the two list keys become
   * lists.
   */
  function FillIn(defaults: Record, record: Record, owner: Value, ownerKey: string, classesKey: string, eventsKey: string): (r: Record)
    requires ownerKey in defaults && classesKey in defaults && eventsKey in defaults
    requires ownerKey != classesKey && ownerKey != eventsKey && classesKey != eventsKey
    ensures r.Keys == record.Keys + defaults.Keys
    ensures forall k :: k in record && k != ownerKey && k != classesKey && k != eventsKey ==> r[k] == record[k]
    ensures forall k :: k in defaults && k !in record && k != ownerKey && k != classesKey && k != eventsKey ==> r[k] == defaults[k]
    ensures r[ownerKey] == owner && r[classesKey].List? && r[eventsKey].List?
    ensures classesKey in record && record[classesKey].List? ==> r[classesKey] == record[classesKey]
    ensures classesKey !in record && defaults[classesKey].List? ==> r[classesKey] == defaults[classesKey]
    ensures eventsKey in record && record[eventsKey].List? ==> r[eventsKey] == record[eventsKey]
    ensures eventsKey !in record && defaults[eventsKey].List? ==> r[eventsKey] == defaults[eventsKey]
  {
    ListAt(ListAt((defaults + record)[ownerKey := owner], classesKey), eventsKey)
  }

  /** Filling in required fields a second time changes nothing. */
  lemma EnsureRequiredFieldsIdempotent(record: Record)
    requires OwnerIsDict(record)
    ensures OwnerIsDict(EnsureRequiredFields(record))
    ensures EnsureRequiredFields(EnsureRequiredFields(record)) == EnsureRequiredFields(record)
  {
    RequiredShape();
    var r := EnsureRequiredFields(record);
    OwnerStaysMerged(r);
    FillInIdempotent(Required, record, MergedOwner(record), "owner", "classes", "events");
  }

  /** Filling in a filled-in record again with the same owner value changes nothing. */
  lemma FillInIdempotent(defaults: Record, record: Record, owner: Value, ownerKey: string, classesKey: string, eventsKey: string)
    requires ownerKey in defaults && classesKey in defaults && eventsKey in defaults
    requires ownerKey != classesKey && ownerKey != eventsKey && classesKey != eventsKey
    ensures var r := FillIn(defaults, record, owner, ownerKey, classesKey, eventsKey);
      FillIn(defaults, r, owner, ownerKey, classesKey, eventsKey) == r
  {
    var r := FillIn(defaults, record, owner, ownerKey, classesKey, eventsKey);
    var r2 := FillIn(defaults, r, owner, ownerKey, classesKey, eventsKey);
    SameMap(r2, r);
  }

  /** Re-merging an already merged owner gives it back. */
  lemma OwnerStaysMerged(r: Record)
    requires "owner" in r && r["owner"].Obj? && Truthy(r["owner"]) && EmptyOwner + r["owner"].fields == r["owner"].fields
    ensures OwnerIsDict(r) && MergedOwner(r) == r["owner"]
  {
  }

  lemma MergeSelf(a: Record)
    ensures a + a == a
  {
  }

  lemma MergeTwice(a: Record, b: Record)
    ensures a + (a + b) == a + b
  {
  }

  lemma SameMap(a: Record, b: Record)
    requires a.Keys == b.Keys && forall k :: k in b ==> a[k] == b[k]
    ensures a == b
  {
  }

  // ---------------------------------------------------------------------------
  // the whole record (data_cleaner.py:12-29, 131-134)

  /** The records `clean_trademark` accepts without raising. */
  predicate Cleanable(record: Record) {
    && (TruthyAt(record, "owner") ==> record["owner"].Obj? && OwnerCleanable(record["owner"].fields))
    && (TruthyAt(record, "representative") ==> RepresentativeValueCleanable(record["representative"]))
  }

  /**
   A truthy representative the cleaner gets through: a dict whose phone and e-mail are
   strings, or a list (it has `copy` too) in which none of the five field names occurs,
   since `rep[field]` on a list raises as soon as `field in rep` holds.
   */
  predicate RepresentativeValueCleanable(v: Value) {
    || (v.Obj? && RepresentativeCleanable(v.fields))
    || (v.List? && forall i :: 0 <= i < |v.items| ==> !(v.items[i].Str? && v.items[i].s in RepresentativeKeys))
  }

  /** The owner and representative cleaned and the three text fields normalised. */
  function CleanFields(record: Record): (r: Record)
    requires Cleanable(record)
    ensures r.Keys == record.Keys
    ensures OwnerIsDict(r)
    ensures forall k :: k in record && k !in {"owner", "representative", "mark_text", "status", "goods_services"} ==> r[k] == record[k]
    ensures TruthyAt(record, "owner") ==> r["owner"] == Obj(CleanOwner(record["owner"].fields))
    ensures TruthyAt(record, "representative") && record["representative"].Obj? ==>
              r["representative"] == Obj(CleanRepresentative(record["representative"].fields))
    ensures "representative" in record && !record["representative"].Obj? ==> r["representative"] == record["representative"]
    ensures forall k :: k in {"mark_text", "status", "goods_services"} && k in record ==> r[k] == NormalizeText(record[k])
    ensures forall k :: k in record && !Truthy(record[k]) ==> r[k] == record[k]
  {
    map k | k in record :: if Truthy(record[k]) then TopField(k, record[k]) else record[k]
  }

  /** What `clean_trademark` does to one truthy top-level field before filling in defaults. */
  function TopField(k: string, v: Value): (r: Value)
    requires k == "owner" ==> v.Obj? && OwnerCleanable(v.fields)
    requires k == "representative" ==> RepresentativeValueCleanable(v)
    ensures k !in {"owner", "representative", "mark_text", "status", "goods_services"} ==> r == v
    ensures k in {"mark_text", "status", "goods_services"} ==> r == NormalizeText(v)
    ensures k == "representative" && !v.Obj? ==> r == v
  {
    if k == "owner" then Obj(CleanOwner(v.fields))
    else if k == "representative" then (if v.Obj? then Obj(CleanRepresentative(v.fields)) else v)
    else if k == "mark_text" || k == "status" || k == "goods_services" then NormalizeText(v)
    else v
  }

  /** `clean_trademark` */
  function CleanTrademark(record: Record): (r: Record)
    requires Cleanable(record)
    ensures r.Keys == record.Keys + Required.Keys
    ensures r["owner"].Obj? && OwnerKeys <= r["owner"].fields.Keys
    ensures r["classes"].List? && r["events"].List?
    ensures forall k :: k in record && k !in Required ==> r[k] == record[k]
  {
    EnsureRequiredFields(CleanFields(record))
  }

  /** The owner is cleaned and then completed with the all-None owner; a falsy one becomes that owner. */
  lemma CleanTrademarkOwner(record: Record)
    requires Cleanable(record)
    ensures CleanTrademark(record)["owner"] ==
              if TruthyAt(record, "owner") then Obj(EmptyOwner + CleanOwner(record["owner"].fields)) else Obj(EmptyOwner)
  {
    var c := CleanFields(record);
    assert TruthyAt(c, "owner") <==> TruthyAt(record, "owner");
  }

  /** The three text fields are whitespace-normalised; an absent one becomes None. */
  lemma CleanTrademarkText(record: Record, k: string)
    requires Cleanable(record)
    requires k == "mark_text" || k == "status" || k == "goods_services"
    ensures CleanTrademark(record)[k] == NormalizeText(Get(record, k))
  {
    TextKeyFacts(k);
    var c := CleanFields(record);
    var r := EnsureRequiredFields(c);
    if k in record {
      assert r[k] == c[k];
    } else {
      assert r[k] == Required[k];
    }
  }

  /** Where the text keys sit among the keys the cleaner treats specially. */
  lemma TextKeyFacts(k: string)
    requires k == "mark_text" || k == "status" || k == "goods_services"
    ensures k in {"mark_text", "status", "goods_services"}
    ensures k !in {"owner", "classes", "events"}
    ensures k in Required && Required[k] == Null
  {
  }

  /** Where the representative key sits among the keys the cleaner treats specially. */
  lemma RepresentativeKeyFacts()
    ensures "representative" !in {"owner", "classes", "events"}
    ensures "representative" in Required && Required["representative"] == Null
  {
  }

  /** A falsy representative, None in particular, is kept as it is; an absent one becomes None. */
  lemma CleanTrademarkFalsyRepresentative(record: Record)
    requires Cleanable(record)
    requires !TruthyAt(record, "representative")
    ensures CleanTrademark(record)["representative"] == Get(record, "representative")
  {
    RepresentativeKeyFacts();
    var c := CleanFields(record);
    var r := EnsureRequiredFields(c);
    if "representative" in record {
      assert r["representative"] == c["representative"];
    } else {
      assert r["representative"] == Required["representative"];
    }
  }

  /** A cleaned record is again one the cleaner accepts. */
  lemma CleanTrademarkCleanable(record: Record)
    requires Cleanable(record)
    ensures Cleanable(CleanTrademark(record))
  {
    CleanedOwnerCleanable(record);
    CleanedRepresentativeCleanable(record);
  }

  lemma CleanedOwnerCleanable(record: Record)
    requires Cleanable(record)
    ensures CleanTrademark(record)["owner"].Obj? && OwnerCleanable(CleanTrademark(record)["owner"].fields)
  {
    CleanTrademarkOwner(record);
    if TruthyAt(record, "owner") {
      CleanOwnerCleanable(record["owner"].fields);
      MergeOwnerCleanable(CleanOwner(record["owner"].fields));
    } else {
      EmptyOwnerCleanable();
    }
  }

  lemma CleanedRepresentativeCleanable(record: Record)
    requires Cleanable(record)
    ensures TruthyAt(CleanTrademark(record), "representative") ==>
              RepresentativeValueCleanable(CleanTrademark(record)["representative"])
  {
    RepresentativeKeyFacts();
    var c := CleanFields(record);
    var r := EnsureRequiredFields(c);
    if TruthyAt(r, "representative") {
      assert "representative" in c;
      assert r["representative"] == c["representative"];
      var v := record["representative"];
      if Truthy(v) && v.Obj? {
        CleanRepresentativeCleanable(v.fields);
      } else {
        assert c["representative"] == v;
      }
    }
  }

  /** The cleaned phone and e-mail of a representative are still strings. */
  lemma CleanRepresentativeCleanable(rep: Record)
    requires RepresentativeCleanable(rep)
    ensures RepresentativeCleanable(CleanRepresentative(rep))
  {
  }

  /** The cleaned owner's name, state, country and postal code are still strings. */
  lemma CleanOwnerCleanable(owner: Record)
    requires OwnerCleanable(owner)
    ensures OwnerCleanable(CleanOwner(owner))
  {
    CleanOwnerKeepsString(owner, "name");
    CleanOwnerKeepsString(owner, "state");
    CleanOwnerKeepsString(owner, "country");
    CleanOwnerKeepsString(owner, "postal_code");
  }

  /** A field the cleaner expects to be a string is truthy afterwards only if it is a string. */
  lemma CleanOwnerKeepsString(owner: Record, k: string)
    requires OwnerCleanable(owner)
    requires TruthyAt(owner, k) ==> owner[k].Str?
    ensures TruthyAt(CleanOwner(owner), k) ==> CleanOwner(owner)[k].Str?
  {
    if k in owner {
      CleanOwnerAt(owner, k);
      OwnerFieldKeepsString(k, owner[k]);
    }
  }

  lemma CleanOwnerAt(owner: Record, k: string)
    requires OwnerCleanable(owner) && k in owner
    ensures CleanOwner(owner)[k] == if Truthy(owner[k]) then OwnerField(k, owner[k]) else owner[k]
  {
  }

  lemma OwnerFieldKeepsString(k: string, v: Value)
    ensures v.Str? ==> OwnerField(k, v).Str?
  {
  }

  lemma EmptyOwnerCleanable()
    ensures OwnerCleanable(EmptyOwner)
  {
  }

  /** Completing a cleanable owner with None fields keeps it cleanable. */
  lemma MergeOwnerCleanable(owner: Record)
    requires OwnerCleanable(owner)
    ensures OwnerCleanable(EmptyOwner + owner)
  {
  }

  /**
   Only one legal form is removed per pass: a name ending in two of them loses the last
   one when cleaned and the other one when cleaned again.
   */
  lemma CleanNameStripsOne(base: string, w1: string, w2: string)
    requires Normalized(base) && base != ""
    requires w1 != "" && NoSpace(w1) && IsLegalSuffix(w1)
    requires w2 != "" && NoSpace(w2) && IsLegalSuffix(w2)
    ensures CleanName(base + " " + w1 + " " + w2) == base + " " + w1
    ensures CleanName(base + " " + w1) == base
    ensures CleanName(CleanName(base + " " + w1 + " " + w2)) != CleanName(base + " " + w1 + " " + w2)
  {
    var once := base + " " + w1;
    StripLegalSuffixRemoves(base, w1);
    StripLegalSuffixRemoves(once, w2);
    NormalizeStringFixpoint(once + " " + w2);
    NormalizeStringFixpoint(once);
    assert |once| > |base|;
  }

  /**
   Cleaning is not idempotent: an owner name ending in two legal forms keeps changing
   on the second pass.
   */
  lemma CleanTrademarkNotIdempotent(record: Record, base: string, w1: string, w2: string)
    requires Cleanable(record) && TruthyAt(record, "owner") && record["owner"].Obj?
    requires "name" in record["owner"].fields && record["owner"].fields["name"] == Str(base + " " + w1 + " " + w2)
    requires Normalized(base) && base != ""
    requires w1 != "" && NoSpace(w1) && IsLegalSuffix(w1)
    requires w2 != "" && NoSpace(w2) && IsLegalSuffix(w2)
    ensures Cleanable(CleanTrademark(record))
    ensures CleanTrademark(record)["owner"].fields["name"] == Str(base + " " + w1)
    ensures CleanTrademark(CleanTrademark(record))["owner"].fields["name"] == Str(base)
  {
    CleanNameStripsOne(base, w1, w2);
    CleanTrademarkCleanable(record);
    CleanedOwnerName(record, base + " " + w1 + " " + w2);
    var once := CleanTrademark(record);
    CleanedOwnerTruthy(record);
    CleanedOwnerName(once, base + " " + w1);
  }

  /** A cleaned record's owner is a non-empty dict. */
  lemma CleanedOwnerTruthy(record: Record)
    requires Cleanable(record)
    ensures TruthyAt(CleanTrademark(record), "owner") && CleanTrademark(record)["owner"].Obj?
  {
    var o := CleanTrademark(record)["owner"];
    assert "name" in o.fields;
  }

  /** The owner name comes out of `clean_trademark` as `CleanName` of what went in. */
  lemma CleanedOwnerName(record: Record, name: string)
    requires Cleanable(record) && TruthyAt(record, "owner") && record["owner"].Obj?
    requires "name" in record["owner"].fields && record["owner"].fields["name"] == Str(name) && name != ""
    ensures CleanTrademark(record)["owner"].Obj?
    ensures "name" in CleanTrademark(record)["owner"].fields
    ensures CleanTrademark(record)["owner"].fields["name"] == Str(CleanName(name))
  {
    CleanTrademarkOwner(record);
    var co := CleanOwner(record["owner"].fields);
    assert co["name"] == Str(CleanName(name));
    OverlayAt(EmptyOwner, co, "name");
  }

  lemma OverlayAt(a: Record, b: Record, k: string)
    requires k in b
    ensures k in a + b && (a + b)[k] == b[k]
  {
  }

  /** "Acme Corp." loses its legal form. */
  lemma CleanNameCorp(name: string)
    requires name == "Acme Corp."
    ensures CleanName(name) == "Acme"
  {
    var base, word := "Acme", "Corp.";
    assert Normalized(base);
    assert IsLegalSuffix(word) by { assert Lower(word) == "corp."; }
    StripLegalSuffixRemoves(base, word);
    assert name == base + " " + word;
    NormalizeStringFixpoint(name);
  }

  /** A legal form that is not the last word stays. */
  lemma CleanNameInnerForm(name: string)
    requires name == "Acme Corporation of America"
    ensures CleanName(name) == name
  {
    var w1, w2, w3, w4 := "Acme", "Corporation", "of", "America";
    assert name == w1 + " " + w2 + " " + w3 + " " + w4;
    StripLegalSuffixSingleWord(w1);
    JoinWordNormalized(w1, w2);
    JoinWordNormalized(w1 + " " + w2, w3);
    var base := w1 + " " + w2 + " " + w3;
    assert !IsLegalSuffix(w4) by { assert Lower(w4) == "america"; }
    StripLegalSuffixKeeps(base, w4);
    NormalizeStringFixpoint(name);
  }

  /** Of two legal forms only the last is removed. */
  lemma CleanNameTwoForms(name: string)
    requires name == "Acme Inc. LLC"
    ensures CleanName(name) == "Acme Inc."
    ensures CleanName(CleanName(name)) == "Acme"
  {
    var base, w1, w2 := "Acme", "Inc.", "LLC";
    assert Normalized(base);
    assert IsLegalSuffix(w1) by { assert Lower(w1) == "inc."; }
    assert IsLegalSuffix(w2) by { assert Lower(w2) == "llc"; }
    var once := base + " " + w1;
    assert name == once + " " + w2;
    assert once == "Acme Inc.";
    CleanNameStripsOne(base, w1, w2);
  }


  /** `clean_batch` */
  function CleanBatch(records: seq<Record>): (r: seq<Record>)
    requires forall i :: 0 <= i < |records| ==> Cleanable(records[i])
    ensures |r| == |records|
    ensures forall i :: 0 <= i < |r| ==> r[i].Keys == records[i].Keys + Required.Keys
  {
    seq(|records|, i requires 0 <= i < |records| => CleanTrademark(records[i]))
  }
}
