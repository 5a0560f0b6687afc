/**
  `datasetsAnnotator.py`: the script that writes or repairs the `dataset.json`
  descriptor of every downloaded dataset. Python dictionaries that the script
  updates in place are `PyDict` objects over a map of JSON values; a raised
  exception is a `PyError`, and the updates made before it stay made. The
  number of entries of the dataset directory is the parameter `entries`.
*/
module Annotator {
  import opened Outcomes

  /** A JSON value as `json.load` returns it (numbers are integers here). */
  datatype Json =
    | JNull
    | JBool(b: bool)
    | JNum(n: int)
    | JStr(s: string)
    | JArr(elements: seq<Json>)
    | JObj(members: map<string, Json>)

  /** The exceptions the script can raise. */
  datatype PyError = KeyError(key: string) | TypeError

  /** The dictionary a sequence of in-place updates left behind, and the exception that stopped them, if any. */
  datatype Effect = Effect(raised: Option<PyError>, after: map<string, Json>)

  const META_TAGS: set<string> := {"dataset_id", "title", "description", "author", "tags"}
  const DOWNLOAD_INFO: string := "download_info"
  const DOWNLOAD: string := "download"
  const DOWNLOADED: string := "downloaded"
  const TOTAL_URLS: string := "total_URLS"
  const LEGACY_DOWNLOADED: string := "Downloaded"
  const LEGACY_TOTAL_URLS: string := "Total_URLS"
  const MINED: string := "mined"

  /** A Python dictionary that the script mutates. */
  class PyDict {
    var items: map<string, Json>

    constructor (items: map<string, Json>)
      ensures this.items == items
    {
      this.items := items;
    }
  }

  /** `d.get(k)`. */
  function Lookup(d: map<string, Json>, k: string): Option<Json> {
    if k in d then Some(d[k]) else None
  }

  /** `len(v)`: elements of a list, characters of a string, keys of a dict; anything else raises TypeError. */
  function LenOf(v: Json): Option<nat> {
    match v
    case JArr(xs) => Some(|xs|)
    case JStr(s) => Some(|s|)
    case JObj(m) => Some(|m|)
    case _ => None
  }

  /** The number `v < n` compares for an integer `n`: a number, or a boolean as 0 or 1; anything else raises TypeError. */
  function NumericValue(v: Json): Option<int> {
    match v
    case JNum(n) => Some(n)
    case JBool(b) => Some(if b then 1 else 0)
    case _ => None
  }

  function Max(a: int, b: int): int {
    if a < b then b else a
  }

  /** The entries of `d` whose keys are in `keys`. */
  function Restrict(d: map<string, Json>, keys: set<string>): (r: map<string, Json>)
    ensures forall k :: k in r <==> k in d && k in keys
    ensures forall k | k in r :: r[k] == d[k]
  {
    map k | k in d && k in keys :: d[k]
  }

  // ---- addMetaTags ------------------------------------------------------------

  /** The target after `addMetaTags`: the meta tags the source has, overriding the target's. */
  function MetaTagsApplied(target: map<string, Json>, source: map<string, Json>): map<string, Json> {
    target + Restrict(source, META_TAGS)
  }

  /** `addMetaTags(dataset, dataset_json)`; `dataset` may be `dataset_json` itself. */
  method AddMetaTags(dataset: PyDict, target: PyDict)
    modifies target
    ensures target.items == MetaTagsApplied(old(target.items), old(dataset.items))
    ensures dataset.items == old(dataset.items)
  {
    ghost var start, source := target.items, dataset.items;
    ghost var done: set<string> := {};
    CopyIfPresent(dataset, target, "dataset_id");
    CopiedOneMore(start, source, done, "dataset_id");
    done := done + {"dataset_id"};
    assert target.items == start + Restrict(source, done) && dataset.items == source;
    CopyIfPresent(dataset, target, "title");
    CopiedOneMore(start, source, done, "title");
    done := done + {"title"};
    assert target.items == start + Restrict(source, done) && dataset.items == source;
    CopyIfPresent(dataset, target, "description");
    CopiedOneMore(start, source, done, "description");
    done := done + {"description"};
    assert target.items == start + Restrict(source, done) && dataset.items == source;
    CopyIfPresent(dataset, target, "author");
    CopiedOneMore(start, source, done, "author");
    done := done + {"author"};
    assert target.items == start + Restrict(source, done) && dataset.items == source;
    CopyIfPresent(dataset, target, "tags");
    CopiedOneMore(start, source, done, "tags");
    SameKeysSameRestriction(source, done + {"tags"}, META_TAGS);
  }

  lemma SameKeysSameRestriction(d: map<string, Json>, keys: set<string>, keys': set<string>)
    requires forall k :: k in keys <==> k in keys'
    ensures Restrict(d, keys) == Restrict(d, keys')
  {
  }

  /** Copying one more key of the source. */
  lemma CopiedOneMore(target: map<string, Json>, source: map<string, Json>, done: set<string>, key: string)
    ensures target + Restrict(source, done) + Restrict(source, {key}) == target + Restrict(source, done + {key})
  {
  }

  /**
    One `if key in dataset: dataset_json[key] = dataset[key]`. When `dataset`
    is `dataset_json` itself the assignment writes back the value already there,
    so `dataset` never changes.
  */
  method CopyIfPresent(dataset: PyDict, target: PyDict, key: string)
    modifies target
    ensures target.items == old(target.items) + Restrict(old(dataset.items), {key})
    ensures dataset.items == old(dataset.items)
  {
    if key in dataset.items {
      target.items := target.items[key := dataset.items[key]];
    }
  }

  /**
    Each meta tag present in the source is copied with its value; a key is
    present afterwards only if it was in the target or is a meta tag of the
    source; every other key of the target keeps its value.
  */
  lemma MetaTagsCopied(target: map<string, Json>, source: map<string, Json>)
    ensures var r := MetaTagsApplied(target, source);
      && (forall k | k in META_TAGS && k in source :: k in r && r[k] == source[k])
      && (forall k :: k in r <==> k in target || (k in META_TAGS && k in source))
      && (forall k | k in target && !(k in META_TAGS && k in source) :: r[k] == target[k])
  {
  }

  /** Copying the meta tags twice is copying them once. */
  lemma MetaTagsIdempotent(target: map<string, Json>, source: map<string, Json>)
    ensures MetaTagsApplied(MetaTagsApplied(target, source), source) == MetaTagsApplied(target, source)
  {
  }

  // ---- addDownloadInfo ----------------------------------------------------------

  /**
    `addDownloadInfo(dataset, dataset_json, path)` on the target's items:
    `dataset_json["download_info"]` must already be a dict; `downloaded` is
    written first, then `total_URLS` from `len(dataset["download"])`.
  */
  function DownloadInfoAdded(source: map<string, Json>, target: map<string, Json>, entries: nat): Effect {
    if DOWNLOAD_INFO !in target then Effect(Some(KeyError(DOWNLOAD_INFO)), target)
    else if !target[DOWNLOAD_INFO].JObj? then Effect(Some(TypeError), target)
    else
      var info := target[DOWNLOAD_INFO].members[DOWNLOADED := JNum(entries)];
      var partial := target[DOWNLOAD_INFO := JObj(info)];
      if DOWNLOAD !in source then Effect(Some(KeyError(DOWNLOAD)), partial)
      else if LenOf(source[DOWNLOAD]).None? then Effect(Some(TypeError), partial)
      else Effect(None, target[DOWNLOAD_INFO := JObj(info[TOTAL_URLS := JNum(LenOf(source[DOWNLOAD]).value)])])
  }

  method AddDownloadInfo(dataset: PyDict, target: PyDict, entries: nat) returns (raised: Option<PyError>)
    modifies target
    ensures Effect(raised, target.items) == DownloadInfoAdded(old(dataset.items), old(target.items), entries)
  {
    if DOWNLOAD_INFO !in target.items {
      return Some(KeyError(DOWNLOAD_INFO));
    }
    var info := target.items[DOWNLOAD_INFO];
    if !info.JObj? {
      return Some(TypeError);
    }
    target.items := target.items[DOWNLOAD_INFO := JObj(info.members[DOWNLOADED := JNum(entries)])];
    if DOWNLOAD !in dataset.items {
      return Some(KeyError(DOWNLOAD));
    }
    var n := LenOf(dataset.items[DOWNLOAD]);
    if n.None? {
      return Some(TypeError);
    }
    info := target.items[DOWNLOAD_INFO];
    target.items := target.items[DOWNLOAD_INFO := JObj(info.members[TOTAL_URLS := JNum(n.value)])];
    raised := None;
  }

  /**
    With a nested `download_info` dict and a sized `download` entry, the call
    succeeds: `downloaded` is the entry count, `total_URLS` the size, and
    nothing else of the target changes. Without the nested dict it raises
    KeyError and changes nothing.
  */
  lemma DownloadInfoWrites(source: map<string, Json>, target: map<string, Json>, entries: nat)
    ensures var e := DownloadInfoAdded(source, target, entries);
      && (DOWNLOAD_INFO !in target ==> e == Effect(Some(KeyError(DOWNLOAD_INFO)), target))
      && (e.raised.None? <==>
            DOWNLOAD_INFO in target && target[DOWNLOAD_INFO].JObj? && DOWNLOAD in source && LenOf(source[DOWNLOAD]).Some?)
      && (e.raised.None? ==>
            && e.after[DOWNLOAD_INFO].JObj?
            && var info := e.after[DOWNLOAD_INFO].members;
            && info[DOWNLOADED] == JNum(entries)
            && info[TOTAL_URLS] == JNum(LenOf(source[DOWNLOAD]).value)
            && (forall k | k !in {DOWNLOADED, TOTAL_URLS} :: Lookup(info, k) == Lookup(target[DOWNLOAD_INFO].members, k)))
      && (forall k | k != DOWNLOAD_INFO :: Lookup(e.after, k) == Lookup(target, k))
  {
  }

  // ---- createDatasetJSONFile ----------------------------------------------------

  /**
    `createDatasetJSONFile(dataset, path)`: the dictionary that would be
    written. It starts empty, so `addDownloadInfo` always finds no
    `download_info` and raises KeyError: nothing is ever written.
  */
  method CreateDatasetJsonFile(dataset: PyDict, entries: nat) returns (written: Result<map<string, Json>, PyError>)
    ensures written == Failure(KeyError(DOWNLOAD_INFO))
  {
    var descriptor := new PyDict(map[]);
    AddMetaTags(dataset, descriptor);
    var raised := AddDownloadInfo(dataset, descriptor, entries);
    if raised.None? {
      // setting "mined" and writing the file are never reached
      assert false;
    }
    written := Failure(raised.value);
  }

  /** `addDownloadInfo` with the nested dict created first. */
  function WithDownloadInfo(source: map<string, Json>, target: map<string, Json>, entries: nat): Result<map<string, Json>, PyError> {
    if DOWNLOAD !in source then Failure(KeyError(DOWNLOAD))
    else if LenOf(source[DOWNLOAD]).None? then Failure(TypeError)
    else Success(target[DOWNLOAD_INFO := JObj(map[DOWNLOADED := JNum(entries), TOTAL_URLS := JNum(LenOf(source[DOWNLOAD]).value)])])
  }

  /** The descriptor `createDatasetJSONFile` evidently means to write. */
  function CreateDatasetJsonFileCorrected(dataset: map<string, Json>, entries: nat): (r: Result<map<string, Json>, PyError>)
    ensures r.Success? <==> DOWNLOAD in dataset && LenOf(dataset[DOWNLOAD]).Some?
    ensures r.Failure? ==> r.error == (if DOWNLOAD in dataset then TypeError else KeyError(DOWNLOAD))
    ensures r.Success? ==>
      && (forall k :: k in r.value <==> k in {DOWNLOAD_INFO, MINED} || (k in META_TAGS && k in dataset))
      && (forall k | k in META_TAGS && k in dataset :: r.value[k] == dataset[k])
      && r.value[MINED] == JBool(false)
      && r.value[DOWNLOAD_INFO] == JObj(map[DOWNLOADED := JNum(entries), TOTAL_URLS := JNum(LenOf(dataset[DOWNLOAD]).value)])
  {
    var built := WithDownloadInfo(dataset, MetaTagsApplied(map[], dataset), entries);
    if built.Failure? then Failure(built.error) else Success(built.value[MINED := JBool(false)])
  }

  // ---- checkDownloadInfo ------------------------------------------------------------

  /**
    The repair of a `download_info` dict: the recorded count is that of
    `Downloaded` (which is deleted, and `Total_URLS` with it), else that of
    `downloaded`, else 0; it is raised to `entries - 1` when smaller; then
    `downloaded` and `total_URLS` (the size of `download`) are written.
  */
  function NormalisedInfo(info: map<string, Json>, entries: nat, download: Option<Json>): Effect {
    var legacy := LEGACY_DOWNLOADED in info;
    var recorded := if legacy then info[LEGACY_DOWNLOADED] else if DOWNLOADED in info then info[DOWNLOADED] else JNum(0);
    var renamed := if legacy then info - {LEGACY_DOWNLOADED} else info;
    if legacy && LEGACY_TOTAL_URLS !in info then Effect(Some(KeyError(LEGACY_TOTAL_URLS)), renamed)
    else
      var cleaned := if legacy then renamed - {LEGACY_TOTAL_URLS} else renamed;
      var n := NumericValue(recorded);
      if n.None? then Effect(Some(TypeError), cleaned)
      else
        var count := if n.value < entries - 1 then JNum(entries - 1) else recorded;
        var counted := cleaned[DOWNLOADED := count];
        if download.None? then Effect(Some(KeyError(DOWNLOAD)), counted)
        else if LenOf(download.value).None? then Effect(Some(TypeError), counted)
        else Effect(None, counted[TOTAL_URLS := JNum(LenOf(download.value).value)])
  }

  /** The count the repair starts from, as `NumericValue` reads it. */
  function RecordedCount(info: map<string, Json>): Option<int> {
    if LEGACY_DOWNLOADED in info then NumericValue(info[LEGACY_DOWNLOADED])
    else if DOWNLOADED in info then NumericValue(info[DOWNLOADED])
    else Some(0)
  }

  /**
    A repair that completes leaves no `Downloaded` key (and no `Total_URLS`
    when there was a `Downloaded`), a count that is the larger of
    the recorded one and `entries - 1`, `total_URLS` equal to the size of
    `download`, and every other key as it was. It completes exactly when the
    legacy pair is complete, the recorded count is comparable with a number
    and `download` has a size.
  */
  lemma NormalisedInfoProperties(info: map<string, Json>, entries: nat, download: Option<Json>)
    ensures var e := NormalisedInfo(info, entries, download);
      && (e.raised.None? <==>
            && (LEGACY_DOWNLOADED in info ==> LEGACY_TOTAL_URLS in info)
            && RecordedCount(info).Some?
            && download.Some? && LenOf(download.value).Some?)
      && (LEGACY_DOWNLOADED in info && LEGACY_TOTAL_URLS !in info ==> e.raised == Some(KeyError(LEGACY_TOTAL_URLS)))
      && (e.raised.None? ==>
            && LEGACY_DOWNLOADED !in e.after
            && (LEGACY_TOTAL_URLS in e.after <==> LEGACY_DOWNLOADED !in info && LEGACY_TOTAL_URLS in info)
            && DOWNLOADED in e.after
            && NumericValue(e.after[DOWNLOADED]) == Some(Max(RecordedCount(info).value, entries - 1))
            && e.after[TOTAL_URLS] == JNum(LenOf(download.value).value)
            && (forall k | k !in {LEGACY_DOWNLOADED, LEGACY_TOTAL_URLS, DOWNLOADED, TOTAL_URLS} :: Lookup(e.after, k) == Lookup(info, k)))
  {
    KeyNamesDiffer();
  }

  /** The four count keys are distinct strings. */
  lemma KeyNamesDiffer()
    ensures LEGACY_DOWNLOADED != DOWNLOADED && LEGACY_DOWNLOADED != TOTAL_URLS
    ensures LEGACY_TOTAL_URLS != DOWNLOADED && LEGACY_TOTAL_URLS != TOTAL_URLS && DOWNLOADED != TOTAL_URLS
  {
    assert LEGACY_DOWNLOADED[0] != DOWNLOADED[0] && LEGACY_DOWNLOADED[0] != TOTAL_URLS[0];
    assert LEGACY_TOTAL_URLS[0] != DOWNLOADED[0] && LEGACY_TOTAL_URLS[0] != TOTAL_URLS[0] && DOWNLOADED[0] != TOTAL_URLS[0];
  }

  /** `download` and `download_info` are different keys of a descriptor. */
  lemma DownloadKeysDiffer()
    ensures DOWNLOAD != DOWNLOAD_INFO
  {
    assert |DOWNLOAD| != |DOWNLOAD_INFO|;
  }

  /** Repairing a repaired dict again, with the same directory and `download`, changes nothing. */
  lemma NormalisedInfoIdempotent(info: map<string, Json>, entries: nat, download: Option<Json>)
    requires NormalisedInfo(info, entries, download).raised.None?
    ensures var once := NormalisedInfo(info, entries, download).after;
      NormalisedInfo(once, entries, download) == Effect(None, once)
  {
    NormalisedInfoProperties(info, entries, download);
    var once := NormalisedInfo(info, entries, download).after;
    assert once[DOWNLOADED := once[DOWNLOADED]][TOTAL_URLS := once[TOTAL_URLS]] == once;
  }

  /** The list entry after the repair of its own `download_info`, as the code does it. */
  function NormalisedEntry(dataset: map<string, Json>, entries: nat): Effect {
    if DOWNLOAD_INFO !in dataset then Effect(Some(KeyError(DOWNLOAD_INFO)), dataset)
    else if !dataset[DOWNLOAD_INFO].JObj? then Effect(Some(TypeError), dataset)
    else
      var e := NormalisedInfo(dataset[DOWNLOAD_INFO].members, entries, Lookup(dataset, DOWNLOAD));
      Effect(e.raised, dataset[DOWNLOAD_INFO := JObj(e.after)])
  }

  /** What `checkDownloadInfo` writes to `dataset.json`, and the list entry it leaves behind. */
  datatype Checked = Checked(written: Result<map<string, Json>, PyError>, entry: map<string, Json>)

  /**
    `checkDownloadInfo` as written: when the loaded descriptor has
    `download_info`, the repair is applied to the list entry `dataset`, and the
    loaded descriptor is written back as it was read; otherwise
    `addDownloadInfo` looks for `download_info` in the loaded descriptor,
    which lacks it by that very test.
  */
  function CheckedAsWritten(dataset: map<string, Json>, loaded: map<string, Json>, entries: nat): Checked {
    if DOWNLOAD_INFO in loaded then
      var e := NormalisedEntry(dataset, entries);
      Checked(if e.raised.Some? then Failure(e.raised.value) else Success(loaded), e.after)
    else
      var e := DownloadInfoAdded(dataset, loaded, entries);
      Checked(Failure(e.raised.value), dataset)
  }

  /** The repair of the entry's `download_info`, step by step on the entry itself. */
  method NormaliseEntry(dataset: PyDict, entries: nat) returns (raised: Option<PyError>)
    modifies dataset
    ensures Effect(raised, dataset.items) == NormalisedEntry(old(dataset.items), entries)
  {
    if DOWNLOAD_INFO !in dataset.items {
      return Some(KeyError(DOWNLOAD_INFO));
    }
    if !dataset.items[DOWNLOAD_INFO].JObj? {
      return Some(TypeError);
    }
    ghost var start := dataset.items;
    ghost var download := Lookup(start, DOWNLOAD);
    ghost var original := start[DOWNLOAD_INFO].members;
    DownloadKeysDiffer();
    var info := dataset.items[DOWNLOAD_INFO].members;
    var recorded := JNum(0);
    if LEGACY_DOWNLOADED in info {
      recorded := info[LEGACY_DOWNLOADED];
      info := info - {LEGACY_DOWNLOADED};
      dataset.items := dataset.items[DOWNLOAD_INFO := JObj(info)];
      if LEGACY_TOTAL_URLS !in info {
        return Some(KeyError(LEGACY_TOTAL_URLS));
      }
      info := info - {LEGACY_TOTAL_URLS};
      dataset.items := dataset.items[DOWNLOAD_INFO := JObj(info)];
    } else if DOWNLOADED in info {
      recorded := info[DOWNLOADED];
    }
    assert info == if LEGACY_DOWNLOADED in original then original - {LEGACY_DOWNLOADED} - {LEGACY_TOTAL_URLS} else original;
    var n := NumericValue(recorded);
    if n.None? {
      return Some(TypeError);
    }
    if n.value < entries - 1 {
      recorded := JNum(entries - 1);
    }
    info := info[DOWNLOADED := recorded];
    dataset.items := dataset.items[DOWNLOAD_INFO := JObj(info)];
    assert dataset.items == start[DOWNLOAD_INFO := JObj(info)];
    assert Lookup(dataset.items, DOWNLOAD) == download;
    if DOWNLOAD !in dataset.items {
      return Some(KeyError(DOWNLOAD));
    }
    var size := LenOf(dataset.items[DOWNLOAD]);
    if size.None? {
      return Some(TypeError);
    }
    info := info[TOTAL_URLS := JNum(size.value)];
    dataset.items := dataset.items[DOWNLOAD_INFO := JObj(info)];
    raised := None;
    assert NormalisedInfo(original, entries, download) == Effect(None, info);
  }

  /** `checkDownloadInfo(dataset, path, json_path)` on the descriptor `loaded` read from `json_path`. */
  method CheckDownloadInfo(dataset: PyDict, loaded: map<string, Json>, entries: nat) returns (written: Result<map<string, Json>, PyError>)
    modifies dataset
    ensures Checked(written, dataset.items) == CheckedAsWritten(old(dataset.items), loaded, entries)
  {
    if DOWNLOAD_INFO in loaded {
      var raised := NormaliseEntry(dataset, entries);
      if raised.Some? {
        return Failure(raised.value);
      }
    } else {
      var descriptor := new PyDict(loaded);
      var raised := AddDownloadInfo(dataset, descriptor, entries);
      return Failure(raised.value);
    }
    written := Success(loaded);
  }

  /**
    As written, a `dataset.json` that is rewritten is rewritten unchanged, and
    one without `download_info` is never rewritten: the old `Downloaded` and
    `Total_URLS` keys stay in every file.
  */
  lemma CheckAsWrittenKeepsFile(dataset: map<string, Json>, loaded: map<string, Json>, entries: nat)
    ensures var c := CheckedAsWritten(dataset, loaded, entries);
      && (c.written.Success? ==> c.written.value == loaded)
      && (DOWNLOAD_INFO !in loaded ==> c == Checked(Failure(KeyError(DOWNLOAD_INFO)), dataset))
  {
  }

  /** A descriptor with only the legacy keys, and a list entry with the same `download_info`: the file keeps the legacy keys. */
  lemma LegacyKeysSurvive()
    ensures var info := JObj(map[LEGACY_DOWNLOADED := JNum(3), LEGACY_TOTAL_URLS := JNum(4)]);
      var loaded := map[DOWNLOAD_INFO := info];
      var dataset := map[DOWNLOAD_INFO := info, DOWNLOAD := JArr([JStr("u1"), JStr("u2"), JStr("u3"), JStr("u4")])];
      var c := CheckedAsWritten(dataset, loaded, 5);
      && c.written == Success(loaded)
      && c.entry[DOWNLOAD_INFO] == JObj(map[DOWNLOADED := JNum(4), TOTAL_URLS := JNum(4)])
  {
    var m := map[LEGACY_DOWNLOADED := JNum(3), LEGACY_TOTAL_URLS := JNum(4)];
    assert m - {LEGACY_DOWNLOADED} - {LEGACY_TOTAL_URLS} == map[];
  }

  /**
    `checkDownloadInfo` as evidently intended: the repair is applied to the
    loaded descriptor, with `total_URLS` taken from the list entry, and a
    descriptor without `download_info` gets a new one.
  */
  function CheckDownloadInfoCorrected(dataset: map<string, Json>, loaded: map<string, Json>, entries: nat): (r: Result<map<string, Json>, PyError>)
    ensures DOWNLOAD_INFO !in loaded ==>
      && (r.Success? <==> DOWNLOAD in dataset && LenOf(dataset[DOWNLOAD]).Some?)
      && (r.Failure? ==> r.error == (if DOWNLOAD in dataset then TypeError else KeyError(DOWNLOAD)))
      && (r.Success? ==>
            DOWNLOAD_INFO in r.value
            && r.value[DOWNLOAD_INFO] == JObj(map[DOWNLOADED := JNum(entries), TOTAL_URLS := JNum(LenOf(dataset[DOWNLOAD]).value)]))
    ensures DOWNLOAD_INFO in loaded && !loaded[DOWNLOAD_INFO].JObj? ==> r == Failure(TypeError)
    ensures r.Success? ==> forall k | k != DOWNLOAD_INFO :: Lookup(r.value, k) == Lookup(loaded, k)
  {
    if DOWNLOAD_INFO !in loaded then WithDownloadInfo(dataset, loaded, entries)
    else if !loaded[DOWNLOAD_INFO].JObj? then Failure(TypeError)
    else
      var e := NormalisedInfo(loaded[DOWNLOAD_INFO].members, entries, Lookup(dataset, DOWNLOAD));
      if e.raised.Some? then Failure(e.raised.value) else Success(loaded[DOWNLOAD_INFO := JObj(e.after)])
  }

  /**
    The corrected check writes a descriptor whose `download_info` has no
    `Downloaded` key, records at least `entries - 1` downloads and the list entry's number
    of URLs; every other top-level key is kept.
  */
  lemma CorrectedCheckRepairsFile(dataset: map<string, Json>, loaded: map<string, Json>, entries: nat)
    requires CheckDownloadInfoCorrected(dataset, loaded, entries).Success?
    ensures var w := CheckDownloadInfoCorrected(dataset, loaded, entries).value;
      && DOWNLOAD_INFO in w && w[DOWNLOAD_INFO].JObj?
      && var info := w[DOWNLOAD_INFO].members;
      && LEGACY_DOWNLOADED !in info
      && DOWNLOADED in info && NumericValue(info[DOWNLOADED]).Some?
      && NumericValue(info[DOWNLOADED]).value >= entries - 1
      && info[TOTAL_URLS] == JNum(LenOf(dataset[DOWNLOAD]).value)
      && (forall k | k != DOWNLOAD_INFO :: Lookup(w, k) == Lookup(loaded, k))
  {
    if DOWNLOAD_INFO in loaded {
      NormalisedInfoProperties(loaded[DOWNLOAD_INFO].members, entries, Lookup(dataset, DOWNLOAD));
    }
  }

  /** Running the corrected check on the file it wrote writes the same file again. */
  lemma CorrectedCheckIdempotent(dataset: map<string, Json>, loaded: map<string, Json>, entries: nat)
    requires CheckDownloadInfoCorrected(dataset, loaded, entries).Success?
    ensures var w := CheckDownloadInfoCorrected(dataset, loaded, entries).value;
      CheckDownloadInfoCorrected(dataset, w, entries) == Success(w)
  {
    var w := CheckDownloadInfoCorrected(dataset, loaded, entries).value;
    var info := w[DOWNLOAD_INFO].members;
    if DOWNLOAD_INFO in loaded {
      NormalisedInfoIdempotent(loaded[DOWNLOAD_INFO].members, entries, Lookup(dataset, DOWNLOAD));
    } else {
      NormalisedInfoProperties(info, entries, Lookup(dataset, DOWNLOAD));
      assert info[DOWNLOADED := info[DOWNLOADED]][TOTAL_URLS := info[TOTAL_URLS]] == info;
    }
    assert w[DOWNLOAD_INFO := JObj(NormalisedInfo(info, entries, Lookup(dataset, DOWNLOAD)).after)] == w;
  }
}
