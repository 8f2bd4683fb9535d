# Trademark record pipeline — a Dafny model

This project models the core of a small trademark-data pipeline. The pipeline has three stages.

1. **Loading.** A spreadsheet is read into dicts: `_read_xls_with_xlrd`, the `.xls` branch of
   `load_from_excel`, and `_format_record`.
2. **Transforming.** `DataTransformer` maps a record with loosely named fields onto a fixed
   15-key shape. It does this by looking values up under many candidate key names, in three
   sources: the record, its `raw_data`, and the spreadsheet row kept inside `raw_data`.
3. **Cleaning.** `DataCleaner` normalises whitespace and case, drops a trailing legal form
   from the owner's name, and fills in missing fields. `flatten_record` turns a record into
   one flat row for CSV export.

Python values are modelled by one datatype, `Values.Value`. It has a case each for None,
bool, int, str, list and dict, and dicts are `map<string, Value>`. Truthiness, `d.get`,
`x or y` chains and "first key present" are defined once in `Values`.

The modules follow the source:

- `Resolver` models `_extract_field`, `_extract_field_multisource` and the three-source
  search.
- `Dates` models `_normalize_date`, with a token-level model of `strptime` for the thirteen
  formats.
- `Classes` and `Transformer` model class, owner, representative and event extraction and
  `transform_trademark`.
- `Provenance` proves which sources and keys the extractor reads.
- `Cleaner` models `clean_trademark` and its helpers.
- `Flatten` models `flatten_record`.
- `Loader` models the spreadsheet reader.
- `Text` and `Strings` model the Python string methods used: `strip`, `re.sub(r'\s+', ' ', …)`,
  `split`, `join`, `str(int)`, `upper`, `lower` and string `<`.

I/O, the clock and the spreadsheet file are not modelled:

- The timestamp branch of `_normalize_date` is a parameter, `Dates.Clock`. It stands for
  `float(v)` followed by `datetime.fromtimestamp`, and yields None when that raises.
  `Dates.RawClock` keeps the exception apart. It is used by the model of the code as written,
  which lets some exceptions escape.
- A sheet is given as a value, `Loader.Sheet`, that holds rows of cells.

## Behaviour worth knowing

- A transformed record has 15 keys: the 14 required fields plus `raw_data`
  (data_transformer.py:29-92).
- Phone cleaning keeps every `+`, wherever it occurs, not only a leading one
  (data_cleaner.py:74).
- `clean_trademark` is not idempotent. The suffix pattern removes one trailing legal form per
  call, so "Acme Inc. LLC" becomes "Acme Inc." and then "Acme". `Cleaner.CleanNameTwoForms`
  and `Cleaner.CleanTrademarkNotIdempotent` show this.
- A truthy list passes through as a representative, since lists have `copy`. It is
  rejected only when it contains one of the five field names.
- The loader stores the raw row at the top level under `_raw_excel_data`. The transformer
  reads it only from inside `raw_data`, so the top-level copy is never consulted
  (`Provenance.TopLevelRowIgnored`).

## Model

| member | source | states |
|---|---|---|
| Resolver.ExtractField | data_transformer.py:97-116 | The value is that of the first candidate key, in list order, that yields one: a plain key present with a value other than None and "", or a dotted path whose walk through nested dicts ends at something other than None. When no key yields a value, the result is the default. |
| Resolver.ExtractFieldPlain | data_transformer.py:111-116 | With plain keys only, there are two cases. Either no key is present with a set value and the result is the default, or the result is the value under the first key that is. |
| Resolver.DottedKeyKeepsEmpty | data_transformer.py:100-110 | A dotted path that ends at "" returns "", not the default. Only None is skipped on the dotted branch. |
| Resolver.DottedKeyMissingSegment | data_transformer.py:100-108 | A dotted key whose first segment is absent yields nothing. |
| Resolver.Sources | data_transformer.py:25-27 | The three sources are the record, then `raw_data` (or {} when it is falsy), then `raw_data._raw_excel_data` (or {} when it is falsy). |
| Resolver.ExtractFieldMultisource | data_transformer.py:119-127 | The result is the default or a value other than None and "". |
| Resolver.MultisourceAppend | data_transformer.py:121-127 | Sources are consulted in order. Sources added after the others matter only when none of the earlier ones yields a value. |
| Resolver.Select | data_transformer.py:195-204 | The search yields the value of the first present field of the first dict source in which that value is truthy. A falsy first-present value sends the search on to the next source. When no source has a truthy one, the result is nothing. |
| Provenance.RecordWins | data_transformer.py:119-127 | A value the record itself yields wins over raw data and the spreadsheet row. |
| Provenance.RawDataNext | data_transformer.py:119-127 | When the record yields nothing, a value from `raw_data` wins over the spreadsheet row. |
| Provenance.ExcelLast | data_transformer.py:119-127 | The spreadsheet row is consulted last. The default is used only when no source yields a value. |
| Provenance.ExtractReadsOnly | data_transformer.py:25-92 | Changing or adding any top-level key outside the lists the extractor names leaves every extracted field unchanged. |
| Provenance.TopLevelRowIgnored | data_transformer.py:26 | A spreadsheet row stored at the top level under `_raw_excel_data` never changes what is extracted. |
| Dates.NormalizeDate | data_transformer.py:130-179 | The result is None or a valid `YYYY-MM-DD` date. None, lists and dicts give None. A string takes the date of the first of the thirteen formats that accepts it. Only when no format accepts it does the string fall through to the timestamp conversion. An int or bool goes to the timestamp conversion. |
| Dates.FirstParse | data_transformer.py:153-158 | It finds the first format, in list order, that accepts the string, or reports that none does. |
| Dates.NormalizeIsoDate | data_transformer.py:137-138 | A valid `YYYY-MM-DD` string is returned unchanged. |
| Dates.NormalizeDateIdempotent | data_transformer.py:130-179 | Normalising a normalised date changes nothing. |
| Dates.IsoRoundTrip | data_transformer.py:156 | Rendering the date that an ISO string names gives the same string back. |
| Dates.RenderOrder | data_transformer.py:156 | Rendered dates compare as strings exactly as the dates compare chronologically. |
| Dates.ExampleMonthFirst | data_transformer.py:140-141 | "01/02/2020" is read month-first, as 2 January 2020, because `%m/%d/%Y` is tried before `%d/%m/%Y`. |
| Dates.ExampleDayFirst | data_transformer.py:140-141 | "13/02/2020" is rejected month-first and read day-first, as 13 February 2020. |
| Dates.ExampleDotted | data_transformer.py:142 | "15.03.2021" is read as 15 March 2021. |
| Dates.ExampleZulu | data_transformer.py:144-145 | "2021-03-15T10:00:00Z" is rejected by the formats before `%Y-%m-%dT%H:%M:%SZ` and read by that one as 2021-03-15. |
| Dates.NormalizeDateAsWritten | data_transformer.py:153-174 | The code as written escapes exactly when no format accepts a string and the conversion raises something other than ValueError or TypeError, or when a number's conversion raises something other than ValueError or OSError. When it returns, it returns what the corrected normaliser returns. |
| Dates.InfiniteTimestampEscapes | data_transformer.py:160-166 | "inf" passes no format, and its conversion raises OverflowError, which the string branch does not catch. The corrected normaliser gives None. |
| Dates.HugeTimestampEscapes | data_transformer.py:168-174 | An integer timestamp of 10**20 raises OverflowError, which the numeric branch does not catch. The corrected normaliser gives None. |
| Dates.CorrectedNeverRaises | data_transformer.py:130-179 | The corrected normaliser returns None or an ISO date for every input and every conversion outcome. It gives None wherever the code as written lets an exception escape. |
| Text.NormalizeString | data_transformer.py:332 | The result has no leading, trailing or repeated whitespace, and it has the same words as the input. |
| Text.NormalizeStringIdempotent | data_transformer.py:332 | Normalising whitespace twice is the same as once. |
| Transformer.NormalizeText | data_transformer.py:326-334 | A non-empty string is whitespace-normalised with its words kept. Anything else is returned as it is. |
| Transformer.NormalizeTextIdempotent | data_transformer.py:326-334 | Normalising text twice is the same as once. |
| Transformer.ClassItem | data_transformer.py:208-215 | A list item gives an entry exactly when it is a dict, an int or a str. An int or str becomes its `str` with no description. |
| Transformer.ClassesFromListAppend | data_transformer.py:207-215 | The entries of a list are the entries of its parts, in order. |
| Classes.PiecesJoin | data_transformer.py:222 | Splitting `;`-joined codes on `;` and stripping gives the codes back. |
| Classes.PiecesIgnoreBlanks | data_transformer.py:222 | Whitespace after a code and a trailing `;` produce no extra pieces. |
| Classes.ScanClassWord | data_transformer.py:230 | "Class" or "class", then whitespace, then digits yields those digits, and the scan goes on after them. |
| Classes.ScanNothing | data_transformer.py:230 | Text with no match at any position yields no class numbers. |
| Transformer.ExtractClasses | data_transformer.py:182-233 | Every entry has exactly the keys `class_number` and `description`. |
| Transformer.ExtractClassesPrecedence | data_transformer.py:182-233 | When the class field that the search selects yields entries, those are the result. Otherwise the result is the class numbers scanned from the goods/services text. |
| Transformer.ExtractClassesFromCodes | data_transformer.py:221-223 | A `;`-separated code string in `classes` gives one entry per code, in order, with no description. |
| Transformer.ExtractClassesFromText | data_transformer.py:225-231 | With no class field anywhere, the entries are the class numbers that "Class N" mentions in the goods/services text. |
| Transformer.ExtractOwner | data_transformer.py:236-280 | The owner always has its six keys. A non-empty string name is whitespace-normalised. |
| Transformer.OwnerFromDict | data_transformer.py:260-274 | An owner dict found in any source is read field by field: city, the first truthy of state and stateProvince, of postalCode, postal_code and zip, and the first present address key. Country is the first truthy of `country` and `countryCode`. When both are falsy, country comes from a `country` or `Country` key of any source. |
| Transformer.OwnerDictInRecord | data_transformer.py:247-274 | A non-empty owner dict in the record's first present owner field gets its country from the dict, or from the fallback when the dict has no truthy country. |
| Transformer.OwnerCountryFallback | data_transformer.py:273-274 | A record with no owner field at all gets an owner that is empty except for the fallback country. |
| Transformer.OwnerFromString | data_transformer.py:269-277 | An owner given as a non-empty string becomes the owner's normalised name. |
| Transformer.ExtractRepresentative | data_transformer.py:283-301 | The result is None, or a dict with the five keys and a truthy value. It is a dict only when a representative field of the record holds a dict. |
| Transformer.RepresentativeFromDict | data_transformer.py:289-301 | A dict in the first present representative field gives a representative exactly when one of its eight source keys is truthy. Name, firm and phone are then the first truthy value among their source keys, and address and e-mail are read as they are. |
| Transformer.RepresentativeNeedsDict | data_transformer.py:288-293 | When the first present representative field holds anything but a dict, there is no representative, whatever later fields hold. |
| Transformer.EventsFrom | data_transformer.py:312-320 | There is one event per dict item. Non-dict items are skipped, and there are no events exactly when no item is a dict. |
| Transformer.EventsFromAppend | data_transformer.py:312-320 | The events of a list are the events of its parts, in order. |
| Transformer.ExtractEvents | data_transformer.py:304-323 | Every event has the four keys and a date that is None or `YYYY-MM-DD`. There are events only if an event field holds a list. |
| Transformer.EventsNeedList | data_transformer.py:309-321 | When the first present event field is not a list, there are no events. Later fields are not looked at. |
| Transformer.TransformTrademark | data_transformer.py:15-94 | The output has exactly the 15 keys, and `raw_data` is the input record. |
| Transformer.TransformShape | data_transformer.py:29-92 | Every transformed record has four dates that are None or ISO, and looked-up fields that are None or set. Its classes are a list of class entries, its owner has six keys, its representative is None or has a truthy field, and its events are a list of events. |
| Transformer.TransformBatch | data_transformer.py:337-339 | One transformed record per input, in order, each with the 15 keys and its own input as `raw_data`. |
| Cleaner.StripLegalSuffixRemoves | data_cleaner.py:41-42 | A final word that is a legal form (Inc, LLC, L.L.C, Corp, Corporation, Ltd or Limited, any case, optional dot where the pattern allows it) is removed together with the space before it. |
| Cleaner.StripLegalSuffixKeeps | data_cleaner.py:41-42 | Any other final word is kept. |
| Cleaner.CleanNameCorp | data_cleaner.py:39-42 | "Acme Corp." is cleaned to "Acme". |
| Cleaner.CleanNameInnerForm | data_cleaner.py:41-42 | A legal form that is not the last word is kept: "Acme Corporation of America" is unchanged. |
| Cleaner.CleanNameTwoForms | data_cleaner.py:41-42 | Only one trailing form goes per call: "Acme Inc. LLC" becomes "Acme Inc.", and cleaning that gives "Acme". |
| Cleaner.CleanOwner | data_cleaner.py:32-59 | Keys are kept. A truthy name is normalised with one legal form dropped. A truthy address and city are normalised. A truthy state, country and postal code are stripped and upper-cased. Falsy fields and other keys are unchanged. |
| Cleaner.CleanRepresentative | data_cleaner.py:62-79 | Keys are kept. A truthy name, firm and address are normalised. A truthy phone keeps only its digits and `+` signs. A truthy e-mail is stripped and lower-cased. Falsy fields and other keys are unchanged. |
| Cleaner.DialCharsFixed | data_cleaner.py:74 | Filtering a phone number changes nothing exactly when it already consists of digits and `+` only. |
| Cleaner.EnsureRequiredFields | data_cleaner.py:89-129 | All 14 required keys are present. Existing values are kept, except the owner, classes and events. Missing keys get their defaults. The owner is the empty owner overlaid with a truthy owner dict. Classes and events are the record's when they are lists, and [] otherwise. |
| Cleaner.EnsureRequiredFieldsIdempotent | data_cleaner.py:89-129 | Filling in required fields twice is the same as once. |
| Cleaner.CleanTrademark | data_cleaner.py:13-29 | The keys are the input's plus the required ones. The owner is a dict holding at least the six owner keys. Classes and events are lists. Every key outside the required set is unchanged. |
| Cleaner.CleanTrademarkOwner | data_cleaner.py:17-18 | The owner is the cleaned owner laid over the empty owner, or the empty owner when the input has none. |
| Cleaner.CleanTrademarkText | data_cleaner.py:23-25 | Mark text, status and goods/services are whitespace-normalised. A missing one becomes None. |
| Cleaner.CleanTrademarkFalsyRepresentative | data_cleaner.py:20-21 | A falsy or missing representative is left as it is, or becomes None. |
| Cleaner.CleanTrademarkCleanable | data_cleaner.py:13-29 | A cleaned record can be cleaned again without error. |
| Cleaner.CleanTrademarkNotIdempotent | data_cleaner.py:39-42 | An owner name ending in two legal forms loses one per cleaning, so cleaning twice differs from cleaning once. |
| Cleaner.CleanBatch | data_cleaner.py:132-134 | One cleaned record per input, in order, each with the input's keys plus the required ones. |
| Flatten.ClassColumns | data_cleaner.py:163-171 | `class_count` is the number of entries. `class_numbers` is None exactly when no entry has a truthy class number, and otherwise is the truthy numbers joined with ", ". |
| Flatten.ClassNumbersAppend | data_cleaner.py:166 | The class numbers of a list are those of its parts, in order. |
| Flatten.ClassColumnsExample | data_cleaner.py:166-168 | Entries numbered "9" and 42 give "9, 42" and a count of 2. |
| Flatten.LatestCharacterised | data_cleaner.py:179-180 | The chosen event is exactly the first dated event whose date no other dated event exceeds, which is what `max` picks. |
| Flatten.LatestIsChronological | data_cleaner.py:179-180 | With ISO dates, no dated event is chronologically later than the chosen one. |
| Flatten.EventColumns | data_cleaner.py:173-189 | `event_count` is the number of events. The latest date is None exactly when no event is dated. Otherwise the latest date and type are those of the event `max` picks. |
| Flatten.FlattenRecord | data_cleaner.py:137-195 | These keys are removed: `raw_data`; owner and representative when they are dicts; classes and events when they are lists. The summary columns are added, and the owner and rep columns for dict values. Every other key keeps its value. |
| Flatten.FlattenOwner | data_cleaner.py:144-152 | The owner's name and country end up in `owner_name` and `owner_country`. |
| Flatten.FlattenRepresentative | data_cleaner.py:154-161 | The representative's phone and e-mail end up in `rep_phone` and `rep_email`. |
| Flatten.FlattenSummary | data_cleaner.py:163-189 | The class and event counts are the list lengths, or 0 without a list. The latest date is None exactly when there is no event list or no dated event. |
| Flatten.FlattenLatestEvent | data_cleaner.py:177-182 | The latest event's date and type are those of the event `max` picks. |
| Loader.HeaderRowFirst | static_data_loader.py:105-116 | The header row is the first of the first ten rows with at least three filled cells. When there is none, it is row 0. |
| Loader.HeaderRowAppend | static_data_loader.py:105-116 | A row added at the bottom does not move the header row unless no header was found, fewer than ten rows exist, and the new row looks like a header. |
| Loader.CountFilledZero | static_data_loader.py:132-136 | A row counts no filled cells exactly when none of its cells is truthy with non-blank text. |
| Loader.HeaderName | static_data_loader.py:122-125 | A header name is never empty. A filled cell gives its stripped text, and any other cell gives `Column_<index>`. |
| Loader.Headers | static_data_loader.py:120-126 | There is one non-empty name per column, read from the header row. |
| Loader.CellValue | static_data_loader.py:140-144 | A cell becomes None exactly when it is the empty string. |
| Loader.RowDictKeys | static_data_loader.py:138-145 | A row's dict has the distinct header names as keys, each where it first appears. |
| Loader.RowDictLastColumnWins | static_data_loader.py:139-145 | Where header names repeat, the last column of that name supplies the value. |
| Loader.ReadSheet | static_data_loader.py:99-149 | An empty sheet gives no records. There are at most as many records as rows below the header. There are none exactly when every row below the header is blank. Every record has exactly the header names as keys. |
| Loader.ReadSheetAppendRow | static_data_loader.py:130-146 | A row added at the bottom, when it does not move the header row, adds its own record after the others. A blank row adds nothing. |
| Loader.ReadSheetIgnoresBlankRow | static_data_loader.py:132-136 | A blank row added at the bottom never changes the records. |
| Loader.ReadSheetIgnoresAboveHeader | static_data_loader.py:130-131 | Rows at and above the header row never become records: sheets that agree on the header row's position and on everything from it down read the same records, whatever the rows above hold. |
| Loader.ReadSheetHeaderOnly | static_data_loader.py:130-131 | A sheet whose last row is its header row has no records. |
| Loader.NormKeySteps | static_data_loader.py:92 | The per-character key normalisation equals the chain strip, lower, replace space, replace hyphen. |
| Loader.NormKeyShape | static_data_loader.py:92 | A normalised key has no space, hyphen or capital letter, and no whitespace at its ends. |
| Loader.NormKeyIdempotent | static_data_loader.py:92 | Normalising a normalised key changes nothing. |
| Loader.NormKeyIgnoresCase | static_data_loader.py:92 | Keys that differ only in case normalise alike. |
| Loader.NormKeySpaceHyphen | static_data_loader.py:92 | An inner space and a hyphen normalise alike. |
| Loader.FormatRecord | static_data_loader.py:85-96 | The raw row is kept under `_raw_excel_data`. Every key lands under its target: its normalised form when its value is set, and the key itself when the value is None. |
| Loader.FormatRecordOnlyTargets | static_data_loader.py:88-93 | Every other key of the result is the target of some key of the row. |
| Loader.FormatRecordKeeps | static_data_loader.py:88-93 | A key whose target no other key shares keeps its value. |
| Loader.FormatRecordLaterWins | static_data_loader.py:88-93 | When keys collide after normalisation, the last one in row order supplies the value. |
| Loader.Truncate | static_data_loader.py:50-51 | The result is a prefix. None and 0 keep everything. A positive limit keeps that many records. A negative limit drops that many from the end, as a Python slice does. |
| Loader.LoadSheet | static_data_loader.py:46-56 | There are as many records as the truncation of the rows read. Each is the formatted record of the row read at its position. |
| Loader.LoadSheetLimit | static_data_loader.py:50-51 | Without a limit, every row read is loaded. A limit of 0 is the same as none. A positive limit gives the first that-many records of the unlimited load. |

## Left out

- Loading other than from `.xls`: the file-existence check, the `.xlsx` and pandas branches,
  logging and the catch-all `except` are I/O. The model starts from a sheet already in memory.
- `_read_xls_with_xlrd` opening the workbook is I/O; a read error returning [] is not modelled.
- Dates.Clock: `float(v)` followed by `datetime.fromtimestamp` is a parameter and not a model.
  It depends on the local time zone and the platform.
- Dates.NormalizeDate: the normaliser the rest of the model uses returns None wherever the
  code lets OverflowError or OSError escape (see Findings). So `Transformer.TransformTrademark`
  never raises in the model, where the code raises for `{"registrationDate": 10**20}`.
  `Dates.NormalizeDateAsWritten` models the code itself.
- Dates.Render: pads the year to four digits. `strftime("%Y")` on glibc prints years below
  1000 without padding, so there "0001-01-01" comes back as "1-01-01".
- Dates.NormalizeDate: the `datetime` branch (data_transformer.py:176-177) is not modelled,
  because `Value` has no datetime case.
- Values.Value: there is no float case. Float timestamps (data_transformer.py:168), float
  class numbers and non-integral spreadsheet numbers cannot be expressed.
- Loader.Cell: a number cell holds an integer only. Fractional xlrd values and xlrd boolean,
  date and error cells are not modelled.
- Loader.CellString: a number prints as its digits followed by ".0". Python prints floats of
  magnitude 1e16 and above in exponent form ("1e+16"), which the model does not follow.
- Resolver.WellFormed: a truthy `raw_data` that is not a dict makes `raw_data.get` raise
  AttributeError (data_transformer.py:25-26). The model requires a truthy `raw_data` to be a
  dict instead of modelling the exception.
- Transformer.ScanText: the class-number scan is applied to strings only. Python scans
  `str(goods_services)` (data_transformer.py:230), so a list or dict value is scanned in its
  printed form. The model finds no numbers in it.
- Transformer.ClassItem: `str(cls)` of a bool gives "True" or "False" in Python. The model
  prints a bool as Python does, but does not model `str` of floats.
- Text.IsSpace: whitespace is the ASCII subset of `str.isspace` and of `\s` (tab, newline,
  vertical tab, form feed, carriage return, 0x1C-0x1F and space). Non-ASCII Unicode spaces
  are not modelled.
- Strings.IsDigit: digits are ASCII 0-9. Python's `\d` also accepts other Unicode decimal
  digits in three places. The first is the class scan (data_transformer.py:230). The second
  is the phone filter (data_cleaner.py:74). The third is the `strptime` fields `%Y`,
  the second digit of `%d`, `%H`, `%M` and `%S` (data_transformer.py:153-158), whose values
  `int()` converts. So a date written in, say, Arabic-Indic digits parses in Python, while
  the model passes it on to the timestamp conversion.
- Cleaner.DialChars: keeps ASCII digits and `+`. Unicode digits that `\d` accepts are not
  modelled.
- Text.Upper: ASCII letters only. Python's `upper` also maps other Unicode letters, some to
  more than one character.
- Text.Lower: ASCII letters only, for the same reason.
- Cleaner.Cleanable: the owner and representative fields that the cleaner calls string methods
  on must be strings when truthy, and a truthy owner must be a dict. The exceptions Python
  raises otherwise (data_cleaner.py:40-77, 119) are not modelled. Non-dict items inside the
  class and event lists are not looked at by the cleaner.
- Flatten.Flattenable: every class and event item must be a dict, and every truthy event date
  a string. Python raises AttributeError on `c.get` or `e.get` for any other item
  (data_cleaner.py:166, 179), and `max` raises TypeError when dates of different types are
  compared. The model requires these instead of modelling the exceptions. It also requires every
  truthy event date to be a string, so it excludes non-string dates that Python would accept,
  such as all-int dates, which `max` compares without error. A truthy class number must be an int, bool or string: `str()` of a
  container class number is not modelled.
- Loader.FormatRecord: `pd.isna` is modelled as "the value is None". The loader produces no
  NaN, since xlrd blanks become None before formatting.
- Transformer.TransformTrademark: the field order of the output dict is not modelled. A
  record is a map.

## Findings

| source | as written | input that shows it | evidently intended | confidence | as-written member | corrected member |
|---|---|---|---|---|---|---|
| data_transformer.py:160-166 | The timestamp fallback for strings catches only ValueError and TypeError. So the OverflowError that `datetime.fromtimestamp(float("inf"))` raises leaves `_normalize_date` and `transform_trademark`. | `{"registrationDate": "inf"}` | A date string that cannot be read gives None. | medium: not executed; relies on CPython raising OverflowError for an infinite timestamp | Dates.InfiniteTimestampEscapes | Dates.NormalizeDate |
| data_transformer.py:168-174 | The numeric branch catches ValueError and OSError but not OverflowError, which `datetime.fromtimestamp` raises for a timestamp beyond the platform's `time_t`. | `{"registrationDate": 10**20}` | An out-of-range timestamp gives None, as the `return None` in the handler shows. | medium: not executed; relies on CPython raising OverflowError for 10**20 | Dates.HugeTimestampEscapes | Dates.NormalizeDate |
