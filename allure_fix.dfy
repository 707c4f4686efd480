/**
 * The report fixer: the JSON files it inlines, the URL resolver the injected
 * script uses to serve them, the predicate deciding which requests it serves,
 * and the rewrite of `index.html` that inserts the script.
 */
module AllureFix {
  import opened Strings
  import opened Search
  import UrlConfigJs

  // ---------------------------------------------------------------- loading

  /** A parsed JSON document; `Falsy` stands for a parse result that is `null`, `false`, `0` or `""`. */
  datatype Json = Falsy | Doc(text: string)

  /** What reading one report file gives: absent, unreadable or unparsable, or a parsed document. */
  datatype FileState = Absent | Unparsable | Parsed(json: Json)

  /** The inlined data: the fixed data and widget files by key, and the test-case files by name when that directory exists. */
  datatype InlineData = InlineData(files: map<string, Json>, testCases: Option<map<string, Json>>)

  /** Entry `i` is the last entry with key `k` that reads and parses. */
  predicate LastParsedAt(entries: seq<(string, FileState)>, k: string, i: int)
  {
    0 <= i < |entries| && entries[i].0 == k && entries[i].1.Parsed? &&
    forall j :: i < j < |entries| ==> !(entries[j].0 == k && entries[j].1.Parsed?)
  }

  /** The entries that read and parse, later ones overriding earlier ones with the same key. */
  function Loaded(entries: seq<(string, FileState)>): (m: map<string, Json>)
    decreases |entries|
    ensures forall k :: k in m <==> exists i :: 0 <= i < |entries| && entries[i].0 == k && entries[i].1.Parsed?
  {
    if |entries| == 0 then map[]
    else
      var m := Loaded(entries[..|entries| - 1]);
      var last := entries[|entries| - 1];
      assert forall i :: 0 <= i < |entries| - 1 ==> entries[..|entries| - 1][i] == entries[i];
      if last.1.Parsed? then m[last.0 := last.1.json] else m
  }

  /** Each loaded key holds the document of the last entry with that key that parses. */
  lemma {:induction false} LoadedValues(entries: seq<(string, FileState)>)
    decreases |entries|
    ensures var m := Loaded(entries);
      forall k | k in m :: exists i :: LastParsedAt(entries, k, i) && entries[i].1.json == m[k]
  {
    if |entries| > 0 {
      var init, last := entries[..|entries| - 1], entries[|entries| - 1];
      assert entries == init + [last];
      LoadedValues(init);
      LoadedSnoc(init, last);
      LoadedStep(init, last, Loaded(init));
    }
  }

  /** One more entry keeps the last-parsed witness of every key it does not override. */
  lemma LoadedStep(init: seq<(string, FileState)>, last: (string, FileState), m: map<string, Json>)
    requires forall k | k in m :: exists i :: LastParsedAt(init, k, i) && init[i].1.json == m[k]
    ensures var m' := if last.1.Parsed? then m[last.0 := last.1.json] else m;
      forall k | k in m' :: exists i :: LastParsedAt(init + [last], k, i) && (init + [last])[i].1.json == m'[k]
  {
    var e := init + [last];
    var m' := if last.1.Parsed? then m[last.0 := last.1.json] else m;
    forall k | k in m' ensures exists i :: LastParsedAt(e, k, i) && e[i].1.json == m'[k]
    {
      if last.1.Parsed? && k == last.0 {
        assert LastParsedAt(e, k, |init|);
      } else {
        var i :| LastParsedAt(init, k, i) && init[i].1.json == m[k];
        assert e[i] == init[i];
        assert LastParsedAt(e, k, i);
      }
    }
  }

  /** Loading one more entry adds it when it parses, replacing an earlier value for its key. */
  lemma LoadedSnoc(entries: seq<(string, FileState)>, e: (string, FileState))
    ensures Loaded(entries + [e]) == if e.1.Parsed? then Loaded(entries)[e.0 := e.1.json] else Loaded(entries)
    ensures ParsedCount(entries + [e]) == ParsedCount(entries) + if e.1.Parsed? then 1 else 0
  {
    assert (entries + [e])[..|entries|] == entries;
  }

  /** The number of entries that read and parse. */
  function ParsedCount(entries: seq<(string, FileState)>): (n: nat)
    decreases |entries|
    ensures n <= |entries|
    ensures n == 0 <==> forall i :: 0 <= i < |entries| ==> !entries[i].1.Parsed?
  {
    if |entries| == 0 then 0
    else
      assert forall i :: 0 <= i < |entries| - 1 ==> entries[..|entries| - 1][i] == entries[i];
      ParsedCount(entries[..|entries| - 1]) + (if entries[|entries| - 1].1.Parsed? then 1 else 0)
  }

  /** The test-case directory listing keeps only names ending in `.json`. */
  function JsonNames(entries: seq<(string, FileState)>): (r: seq<(string, FileState)>)
    decreases |entries|
    ensures |r| <= |entries|
    ensures forall i :: 0 <= i < |r| ==> EndsWith(r[i].0, ".json")
    ensures forall e :: e in r <==> e in entries && EndsWith(e.0, ".json")
  {
    if |entries| == 0 then []
    else
      var rest := JsonNames(entries[..|entries| - 1]);
      assert forall e :: e in entries <==> e in entries[..|entries| - 1] || e == entries[|entries| - 1];
      if EndsWith(entries[|entries| - 1].0, ".json") then rest + [entries[|entries| - 1]] else rest
  }

  /**
   * One loading loop: each entry is read and parsed in turn, a failure only
   * skipping that entry; `count` counts the successes.
   */
  method LoadEntries(entries: seq<(string, FileState)>) returns (m: map<string, Json>, count: nat)
    ensures m == Loaded(entries) && count == ParsedCount(entries)
  {
    m, count := map[], 0;
    var i := 0;
    while i < |entries|
      invariant 0 <= i <= |entries|
      invariant m == Loaded(entries[..i])
      invariant count == ParsedCount(entries[..i])
    {
      assert entries[..i + 1] == entries[..i] + [entries[i]];
      LoadedSnoc(entries[..i], entries[i]);
      if entries[i].1.Parsed? {
        m := m[entries[i].0 := entries[i].1.json];
        count := count + 1;
      }
      i := i + 1;
    }
    assert entries[..i] == entries;
  }

  /**
   * The loading step: the fixed data and widget files, then, when the
   * test-case directory exists, its `.json` files by name.  `loadedCount`
   * counts every success.
   */
  method LoadInlineData(fixed: seq<(string, FileState)>, testCaseDir: Option<seq<(string, FileState)>>)
      returns (data: InlineData, loadedCount: nat)
    ensures data.files == Loaded(fixed)
    ensures testCaseDir.None? ==> data.testCases.None? && loadedCount == ParsedCount(fixed)
    ensures testCaseDir.Some? ==>
      data.testCases == Some(Loaded(JsonNames(testCaseDir.value))) &&
      loadedCount == ParsedCount(fixed) + ParsedCount(JsonNames(testCaseDir.value))
  {
    var files, n := LoadEntries(fixed);
    data, loadedCount := InlineData(files, None), n;
    if testCaseDir.Some? {
      var cases, k := LoadEntries(JsonNames(testCaseDir.value));
      data, loadedCount := data.(testCases := Some(cases)), loadedCount + k;
    }
  }

  // ---------------------------------------------------------------- the resolver

  const ReportDir := "/allure-report/"

  /** A `file://` URL reduced to the part after the first `/allure-report/`, or else to its last segment. */
  function FileRelative(url: string): (r: string)
    ensures EndsWith(url, r)
    ensures !StartsWith(url, "file://") ==> r == url
    ensures StartsWith(url, "file://") && Contains(url, ReportDir) ==>
      url[..IndexOf(url, ReportDir)] + ReportDir + r == url
    ensures StartsWith(url, "file://") && !Contains(url, ReportDir) ==> r == AfterLast(url, "/") && !Contains(r, "/")
  {
    if StartsWith(url, "file://") then
      var i := IndexOf(url, ReportDir);
      if i != -1 then
        AroundOccurrence(url, ReportDir, i);
        url[i + |ReportDir|..]
      else
        AfterLastSuffix(url, "/");
        AfterLast(url, "/")
    else url
  }

  /** `split(sep).pop()` is a suffix of the string. */
  lemma AfterLastSuffix(s: string, sep: string)
    requires |sep| > 0
    ensures EndsWith(s, AfterLast(s, sep))
  {
    if Contains(s, sep) {
      EndsWithTail(s, sep, AfterLast(s, sep));
    }
  }

  /** At most one leading `./` is dropped, then at most one leading `/`. */
  function StripLeading(n: string): (r: string)
    ensures EndsWith(n, r) && |n| - |r| <= 3
    ensures !StartsWith(n, "./") && !StartsWith(n, "/") ==> r == n
    ensures !StartsWith(n, "./") && StartsWith(n, "/") ==> r == n[1..]
    ensures StartsWith(n, "./") && !StartsWith(n[2..], "/") ==> r == n[2..]
    ensures StartsWith(n, "./") && StartsWith(n[2..], "/") ==> r == n[3..]
  {
    var a := if StartsWith(n, "./") then n[2..] else n;
    if StartsWith(a, "/") then a[1..] else a
  }

  /** The key the resolver starts from. */
  function Normalize(url: string): (r: string)
    ensures EndsWith(url, r)
  {
    var n := FileRelative(url);
    var s := StripLeading(n);
    assert url[|url| - |s|..] == n[|n| - |s|..];
    s
  }

  /** What the resolver looks up, in order: a test-case file by name, or a key of the inlined data. */
  datatype Probe = TestCase(name: string) | Key(key: string)

  /**
   * The lookups after normalisation: the test-case file when the key is under
   * `data/test-cases/`, the key itself, `data/`+suffix and the suffix alone,
   * `widgets/`+suffix and the suffix alone, the bare file name.
   */
  function Candidates(n: string): (ps: seq<Probe>)
    ensures |ps| >= 2 && ps[|ps| - 1] == Key(AfterLast(n, "/"))
    ensures Key(n) in ps
  {
    Probes(Contains(n, "data/test-cases/"), n, Contains(n, "data/"), AfterLast(n, "data/"),
           Contains(n, "widgets/"), AfterLast(n, "widgets/"), AfterLast(n, "/"))
  }

  function Probes(tc: bool, n: string, data: bool, dataPath: string, widgets: bool, widgetPath: string, name: string)
    : (ps: seq<Probe>)
    ensures |ps| >= 2 && ps[|ps| - 1] == Key(name)
    ensures Key(n) in ps
  {
    (if tc then [TestCase(name)] else []) + ([Key(n)] + (DirProbes(data, "data/", dataPath) +
    (DirProbes(widgets, "widgets/", widgetPath) + [Key(name)])))
  }

  /** The two lookups of a directory branch: the prefixed suffix, then the suffix alone. */
  function DirProbes(on: bool, dir: string, suffix: string): seq<Probe> {
    if on then [Key(dir + suffix), Key(suffix)] else []
  }

  /** A member is served when present and truthy. */
  predicate Served(m: map<string, Json>, k: string) { k in m && m[k].Doc? }

  function Hit(d: InlineData, p: Probe): (r: Option<Json>)
    ensures r.Some? ==> r.value.Doc?
  {
    match p
    case TestCase(name) =>
      if d.testCases.Some? && Served(d.testCases.value, name) then Some(d.testCases.value[name]) else None
    case Key(k) => if Served(d.files, k) then Some(d.files[k]) else None
  }

  function HitSome(d: InlineData): Probe -> bool { p => Hit(d, p).Some? }

  /** The reference: the first probe that hits wins. */
  function FirstHit(d: InlineData, ps: seq<Probe>): (r: Option<Json>)
    decreases |ps|
    ensures r.Some? ==> r.value.Doc?
  {
    if |ps| == 0 then None
    else if Hit(d, ps[0]).Some? then Hit(d, ps[0])
    else FirstHit(d, ps[1..])
  }

  /** A hit in the first part of the probe list hides the rest. */
  lemma {:induction false} FirstHitAppend(d: InlineData, ps: seq<Probe>, qs: seq<Probe>)
    decreases |ps|
    ensures FirstHit(d, ps + qs) == if FirstHit(d, ps).Some? then FirstHit(d, ps) else FirstHit(d, qs)
  {
    if |ps| > 0 {
      assert (ps + qs)[0] == ps[0];
      assert (ps + qs)[1..] == ps[1..] + qs;
      FirstHitAppend(d, ps[1..], qs);
    } else {
      assert ps + qs == qs;
    }
  }

  /** A one- or two-probe list hits at its first probe, else at its second. */
  lemma FirstHitPair(d: InlineData, p: Probe, q: Probe)
    ensures FirstHit(d, [p]) == Hit(d, p)
    ensures FirstHit(d, [p, q]) == if Hit(d, p).Some? then Hit(d, p) else Hit(d, q)
  {
    assert [p, q][1..] == [q];
    assert [p][1..] == [];
    assert [q][1..] == [];
  }

  /**
   * `window.getInlineData(url)`: `null` for a missing, non-string or empty URL;
   * otherwise the normalised key is looked up along the chain of early returns.
   */
  function GetInlineData(d: InlineData, url: Option<string>): (r: Option<Json>)
    ensures url.None? || url == Some("") ==> r.None?
    ensures url.Some? && url.value != "" ==> r == FirstHit(d, Candidates(Normalize(url.value)))
  {
    if url.None? || url.value == "" then None
    else
      LookupIsFirstHit(d, Normalize(url.value));
      Lookup(d, Normalize(url.value))
  }

  /** The chain of early returns on the normalised key, each lookup passing over absent and falsy members. */
  function Lookup(d: InlineData, n: string): (r: Option<Json>)
    ensures r.Some? ==> r.value.Doc?
  {
    Chain(d, Contains(n, "data/test-cases/"), n, Contains(n, "data/"), AfterLast(n, "data/"),
          Contains(n, "widgets/"), AfterLast(n, "widgets/"), AfterLast(n, "/"))
  }

  function Chain(d: InlineData, tc: bool, n: string, data: bool, dataPath: string, widgets: bool, widgetPath: string, name: string)
    : (r: Option<Json>)
    ensures r.Some? ==> r.value.Doc?
  {
    if tc && Hit(d, TestCase(name)).Some? then Hit(d, TestCase(name))
    else if Served(d.files, n) then Some(d.files[n])
    else if data && Served(d.files, "data/" + dataPath) then Some(d.files["data/" + dataPath])
    else if data && Served(d.files, dataPath) then Some(d.files[dataPath])
    else if widgets && Served(d.files, "widgets/" + widgetPath) then Some(d.files["widgets/" + widgetPath])
    else if widgets && Served(d.files, widgetPath) then Some(d.files[widgetPath])
    else if Served(d.files, name) then Some(d.files[name])
    else None
  }

  /** The chain of early returns is the first hit along the candidate lookups. */
  lemma LookupIsFirstHit(d: InlineData, n: string)
    ensures Lookup(d, n) == FirstHit(d, Candidates(n))
  {
    ChainIsFirstHit(d, Contains(n, "data/test-cases/"), n, Contains(n, "data/"), AfterLast(n, "data/"),
                    Contains(n, "widgets/"), AfterLast(n, "widgets/"), AfterLast(n, "/"));
  }

  lemma ChainIsFirstHit(d: InlineData, tc: bool, n: string, data: bool, dataPath: string, widgets: bool, widgetPath: string, name: string)
    ensures Chain(d, tc, n, data, dataPath, widgets, widgetPath, name) ==
            FirstHit(d, Probes(tc, n, data, dataPath, widgets, widgetPath, name))
  {
    var tail := DirProbes(widgets, "widgets/", widgetPath) + [Key(name)];
    FirstHitPair(d, Key(name), Key(name));
    DirHit(d, widgets, "widgets/", widgetPath, [Key(name)]);
    var rest := DirProbes(data, "data/", dataPath) + tail;
    DirHit(d, data, "data/", dataPath, tail);
    FirstHitAppend(d, [Key(n)], rest);
    FirstHitPair(d, Key(n), Key(n));
    if tc {
      FirstHitAppend(d, [TestCase(name)], [Key(n)] + rest);
      FirstHitPair(d, TestCase(name), Key(n));
      assert Probes(tc, n, data, dataPath, widgets, widgetPath, name) == [TestCase(name)] + ([Key(n)] + rest);
    } else {
      assert Probes(tc, n, data, dataPath, widgets, widgetPath, name) == [Key(n)] + rest;
    }
  }

  /** A directory branch hits at its prefixed key, else at its bare suffix, else the lookups after it decide. */
  lemma DirHit(d: InlineData, on: bool, dir: string, suffix: string, qs: seq<Probe>)
    ensures FirstHit(d, DirProbes(on, dir, suffix) + qs) ==
      if on && Served(d.files, dir + suffix) then Some(d.files[dir + suffix])
      else if on && Served(d.files, suffix) then Some(d.files[suffix])
      else FirstHit(d, qs)
  {
    FirstHitAppend(d, DirProbes(on, dir, suffix), qs);
    FirstHitPair(d, Key(dir + suffix), Key(suffix));
    assert DirProbes(false, dir, suffix) == [];
  }

  /** The resolver finds a key in its relative, `./`-prefixed and `/`-prefixed forms alike. */
  lemma RelativeFormsAgree(d: InlineData, k: string)
    requires k != "" && !StartsWith(k, "/") && !StartsWith(k, "./") && !StartsWith(k, "file://")
    ensures GetInlineData(d, Some("./" + k)) == GetInlineData(d, Some(k))
    ensures GetInlineData(d, Some("/" + k)) == GetInlineData(d, Some(k))
  {
    assert Normalize(k) == k;
    assert !StartsWith("./" + k, "file://") by { assert ("./" + k)[0] == '.'; }
    assert ("./" + k)[2..] == k;
    assert Normalize("./" + k) == k;
    assert !StartsWith("/" + k, "file://") by { assert ("/" + k)[0] == '/'; }
    assert !StartsWith("/" + k, "./") by { assert ("/" + k)[0] == '/'; }
    assert ("/" + k)[1..] == k;
    assert Normalize("/" + k) == k;
  }

  // ---------------------------------------------------------------- interception

  /**
   * The condition under which the `fetch`, XHR and jQuery interceptors consult
   * the resolver: a string URL ending in `.json` that is a `file://` URL or
   * neither an `http://` nor an `https://` one.
   */
  predicate Intercepts(url: Option<string>) {
    url.Some? && EndsWith(url.value, ".json") &&
    (StartsWith(url.value, "file://") || (!StartsWith(url.value, "http://") && !StartsWith(url.value, "https://")))
  }

  /** The `file://` disjunct is redundant: a URL is intercepted iff it ends in `.json` and is not `http(s)://`. */
  lemma InterceptsIff(url: Option<string>)
    ensures Intercepts(url) <==>
      url.Some? && EndsWith(url.value, ".json") &&
      !StartsWith(url.value, "http://") && !StartsWith(url.value, "https://")
  {
    if url.Some? && StartsWith(url.value, "file://") {
      assert url.value[0] == 'f';
    }
  }

  /** What an interceptor hands back: inlined data, or `None` when the request goes to the original function. */
  function Intercept(d: InlineData, url: Option<string>): (r: Option<Json>)
    ensures r.Some? ==> Intercepts(url) && r.value.Doc?
    ensures Intercepts(url) ==> r == FirstHit(d, Candidates(Normalize(url.value)))
  {
    if Intercepts(url) then GetInlineData(d, url) else None
  }

  /** The member name a probe reads. */
  function ProbeName(p: Probe): string {
    match p
    case TestCase(name) => name
    case Key(k) => k
  }

  predicate SlashFree(x: string) { forall k :: 0 <= k < |x| ==> x[k] != '/' }

  /** What follows a separator ending in `/` keeps a slash-free suffix of the whole string. */
  lemma SuffixAfterSlash(s: string, sep: string, r: string, x: string)
    requires |sep| > 0 && sep[|sep| - 1] == '/' && EndsWith(s, sep + r)
    requires EndsWith(s, x) && SlashFree(x)
    ensures EndsWith(r, x)
  {
    assert s[|s| - |sep + r|..] == sep + r;
    assert s[|s| - |r| - 1] == (sep + r)[|sep| - 1];
    assert s[|s| - |r|..] == r;
    assert r[|r| - |x|..] == s[|s| - |x|..];
  }

  lemma AfterLastKeepsSuffix(s: string, sep: string, x: string)
    requires |sep| > 0 && sep[|sep| - 1] == '/' && EndsWith(s, x) && SlashFree(x)
    ensures EndsWith(AfterLast(s, sep), x)
  {
    if Contains(s, sep) {
      SuffixAfterSlash(s, sep, AfterLast(s, sep), x);
    }
  }

  lemma FileRelativeKeepsSuffix(url: string, x: string)
    requires EndsWith(url, x) && SlashFree(x)
    ensures EndsWith(FileRelative(url), x)
  {
    var n := FileRelative(url);
    if StartsWith(url, "file://") {
      if Contains(url, ReportDir) {
        var pre := url[..IndexOf(url, ReportDir)];
        Assoc(pre, ReportDir, n);
        EndsWithExtend(pre, ReportDir + n, ReportDir + n);
        SuffixAfterSlash(url, ReportDir, n, x);
      } else {
        AfterLastKeepsSuffix(url, "/", x);
      }
    }
  }

  lemma StripLeadingKeepsSuffix(n: string, x: string)
    requires EndsWith(n, x) && SlashFree(x)
    ensures EndsWith(StripLeading(n), x)
  {
    var r := StripLeading(n);
    if StartsWith(n, "./") && StartsWith(n[2..], "/") {
      assert n == ".//" + r;
      SuffixAfterSlash(n, ".//", r, x);
    } else if StartsWith(n, "./") {
      assert n == "./" + r;
      SuffixAfterSlash(n, "./", r, x);
    } else if StartsWith(n, "/") {
      assert n == "/" + r;
      SuffixAfterSlash(n, "/", r, x);
    }
  }

  /** Every probe of `ps` reads a member name ending in `x`. */
  predicate AllEndWith(ps: seq<Probe>, x: string) {
    forall i :: 0 <= i < |ps| ==> EndsWith(ProbeName(ps[i]), x)
  }

  lemma AllEndWithJoin(ps: seq<Probe>, qs: seq<Probe>, x: string)
    requires AllEndWith(ps, x) && AllEndWith(qs, x)
    ensures AllEndWith(ps + qs, x)
  {
    forall i | 0 <= i < |ps + qs|
      ensures EndsWith(ProbeName((ps + qs)[i]), x)
    {
      if i < |ps| { assert (ps + qs)[i] == ps[i]; } else { assert (ps + qs)[i] == qs[i - |ps|]; }
    }
  }

  lemma DirProbesEndWith(on: bool, dir: string, suffix: string, x: string)
    requires EndsWith(suffix, x)
    ensures AllEndWith(DirProbes(on, dir, suffix), x)
  {
    EndsWithExtend(dir, suffix, x);
  }

  /** Every probe built from parts ending in `x` reads a member name ending in `x`. */
  lemma ProbesKeepSuffix(tc: bool, n: string, data: bool, dataPath: string, widgets: bool, widgetPath: string,
                         name: string, x: string)
    requires EndsWith(n, x) && EndsWith(dataPath, x) && EndsWith(widgetPath, x) && EndsWith(name, x)
    ensures forall p :: p in Probes(tc, n, data, dataPath, widgets, widgetPath, name) ==> EndsWith(ProbeName(p), x)
  {
    var last := [Key(name)];
    var w := DirProbes(widgets, "widgets/", widgetPath);
    var dt := DirProbes(data, "data/", dataPath);
    var head := if tc then [TestCase(name)] else [];
    DirProbesEndWith(widgets, "widgets/", widgetPath, x);
    DirProbesEndWith(data, "data/", dataPath, x);
    AllEndWithJoin(w, last, x);
    AllEndWithJoin(dt, w + last, x);
    AllEndWithJoin([Key(n)], dt + (w + last), x);
    AllEndWithJoin(head, [Key(n)] + (dt + (w + last)), x);
    var ps := Probes(tc, n, data, dataPath, widgets, widgetPath, name);
    assert ps == head + ([Key(n)] + (dt + (w + last)));
    forall p | p in ps
      ensures EndsWith(ProbeName(p), x)
    {
      var i :| 0 <= i < |ps| && ps[i] == p;
    }
  }

  /** `testCases` and the `Object.prototype` member names do not end in `.json`. */
  lemma UnprobedNames()
    ensures !EndsWith("testCases", ".json")
    ensures forall k :: k in UrlConfigJs.ObjectPrototypeNames ==> !EndsWith(k, ".json")
  {
  }

  /**
   * Every member an intercepted request probes ends in `.json`: the test-case
   * file name as well as each key of the inlined data.  So the `testCases`
   * member and the names inherited from `Object.prototype`, which the
   * resolver's object also answers to, are never reached through the
   * interceptors.
   */
  lemma InterceptedProbesAreJson(url: Option<string>)
    requires Intercepts(url)
    ensures forall p :: p in Candidates(Normalize(url.value)) ==> EndsWith(ProbeName(p), ".json")
    ensures forall p :: p in Candidates(Normalize(url.value)) ==>
      ProbeName(p) != "testCases" && ProbeName(p) !in UrlConfigJs.ObjectPrototypeNames
  {
    var x := ".json";
    FileRelativeKeepsSuffix(url.value, x);
    StripLeadingKeepsSuffix(FileRelative(url.value), x);
    var n := Normalize(url.value);
    AfterLastKeepsSuffix(n, "data/", x);
    AfterLastKeepsSuffix(n, "widgets/", x);
    AfterLastKeepsSuffix(n, "/", x);
    ProbesKeepSuffix(Contains(n, "data/test-cases/"), n, Contains(n, "data/"), AfterLast(n, "data/"),
                     Contains(n, "widgets/"), AfterLast(n, "widgets/"), AfterLast(n, "/"), x);
    UnprobedNames();
  }

  // ---------------------------------------------------------------- the HTML rewrite

  const HeadClose := "</head>"
  const ScriptOpen := "<script>"
  const ScriptClose := "</script>"
  /** What the rerun check looks for. */
  const DetectMarker := "__ALLURE_INLINE_DATA__"
  /** What the removal pattern requires between the tags. */
  const BlockMarker := "window." + DetectMarker

  /** After a `$`, these characters make a substitution in a replacement string. */
  predicate SpecialAfterDollar(c: char) {
    c == '$' || c == '&' || c == '`' || c == '\''
  }

  /** No `$` of `r` starts a substitution; a `$` before any other character, as in `$.get`, stands for itself. */
  predicate NoSpecialDollar(r: string) {
    forall i :: 0 <= i < |r| - 1 && r[i] == '$' ==> !SpecialAfterDollar(r[i + 1])
  }

  /**
   * The replacement-string substitutions of `String.prototype.replace` with a
   * string pattern: `$$` is `$`, `$&` the match, `` $` `` the text before it,
   * `$'` the text after it; any other `$` stands for itself.
   */
  function Expand(r: string, before: string, matched: string, after: string): (x: string)
    decreases |r|
    ensures NoSpecialDollar(r) ==> x == r
  {
    if |r| == 0 then ""
    else if r[0] == '$' && |r| >= 2 && r[1] == '$' then "$" + Expand(r[2..], before, matched, after)
    else if r[0] == '$' && |r| >= 2 && r[1] == '&' then matched + Expand(r[2..], before, matched, after)
    else if r[0] == '$' && |r| >= 2 && r[1] == '`' then before + Expand(r[2..], before, matched, after)
    else if r[0] == '$' && |r| >= 2 && r[1] == '\'' then after + Expand(r[2..], before, matched, after)
    else
      assert forall i :: 0 <= i < |r| - 1 ==> r[1..][i] == r[i + 1];
      [r[0]] + Expand(r[1..], before, matched, after)
  }

  /** `s.replace(pat, repl)` with a string pattern: the first occurrence only, with `repl` expanded. */
  function ReplaceFirst(s: string, pat: string, repl: string): (r: string)
    ensures !Contains(s, pat) ==> r == s
  {
    var i := IndexOf(s, pat);
    if i < 0 then s
    else s[..i] + Expand(repl, s[..i], pat, s[i + |pat|..]) + s[i + |pat|..]
  }

  /** The insertion as written: `html.replace('</head>', script + '\n</head>')`. */
  function InsertScriptAsWritten(html: string, script: string): string {
    ReplaceFirst(html, HeadClose, script + "\n" + HeadClose)
  }

  /**
   * The insertion as intended: the script and a newline placed verbatim before
   * the first `</head>`; HTML without `</head>` is left unchanged.
   */
  function InsertScript(html: string, script: string): (r: string)
    ensures !Contains(html, HeadClose) ==> r == html
    ensures Contains(html, HeadClose) ==>
      var i := IndexOf(html, HeadClose);
      |r| == |html| + |script| + 1 && r[..i] == html[..i] &&
      r[i..i + |script|] == script && r[i + |script|] == '\n' && r[i + |script| + 1..] == html[i..]
  {
    var i := IndexOf(html, HeadClose);
    if i < 0 then html
    else
      var r := html[..i] + script + "\n" + html[i..];
      assert r[i + |script| + 1..] == html[i..];
      r
  }

  /** Joining keeps substitutions out unless the seam itself is a `$` and a special character. */
  lemma NoSpecialDollarJoin(a: string, b: string)
    requires NoSpecialDollar(a) && NoSpecialDollar(b)
    requires |a| == 0 || |b| == 0 || a[|a| - 1] != '$' || !SpecialAfterDollar(b[0])
    ensures NoSpecialDollar(a + b)
  {
    var ab := a + b;
    forall i | 0 <= i < |ab| - 1 && ab[i] == '$'
      ensures !SpecialAfterDollar(ab[i + 1])
    {
      if i + 1 < |a| {
        assert ab[i] == a[i] && ab[i + 1] == a[i + 1];
      } else if i >= |a| {
        assert ab[i] == b[i - |a|] && ab[i + 1] == b[i - |a| + 1];
      } else {
        assert ab[i] == a[|a| - 1] && ab[i + 1] == b[0];
      }
    }
  }

  /** The replacement text is free of substitutions when the script is: the seam is a newline. */
  lemma NoSpecialDollarReplacement(text: string, pat: string)
    requires NoSpecialDollar(text) && NoSpecialDollar(pat)
    ensures NoSpecialDollar(text + "\n" + pat)
  {
    NoSpecialDollarJoin(text, "\n");
    NoSpecialDollarJoin(text + "\n", pat);
  }

  /** A replacement without substitutions is inserted as it stands. */
  lemma ReplaceLiteral(html: string, pat: string, repl: string)
    requires NoSpecialDollar(repl) && Contains(html, pat)
    ensures ReplaceFirst(html, pat, repl) == html[..IndexOf(html, pat)] + repl + html[IndexOf(html, pat) + |pat|..]
  {
  }

  lemma Reassociate(before: string, text: string, pat: string, rest: string)
    ensures before + (text + "\n" + pat) + rest == before + text + "\n" + (pat + rest)
  {
  }

  /** With no substitution in it, `text + "\n" + pat` replaces the first `pat` literally. */
  lemma ReplaceWithoutSpecialDollar(html: string, pat: string, text: string)
    requires NoSpecialDollar(text) && NoSpecialDollar(pat)
    ensures ReplaceFirst(html, pat, text + "\n" + pat) ==
      var i := IndexOf(html, pat);
      if i < 0 then html else html[..i] + text + "\n" + html[i..]
  {
    NoSpecialDollarReplacement(text, pat);
    var i := IndexOf(html, pat);
    if i >= 0 {
      var before, rest := html[..i], html[i + |pat|..];
      ReplaceLiteral(html, pat, text + "\n" + pat);
      SplitAtOccurrence(html, pat, i);
      Reassociate(before, text, pat, rest);
    }
  }

  /** Without a substitution in the script, the insertion as written is the intended one. */
  lemma InsertAgreesWithoutSpecialDollar(html: string, script: string)
    requires NoSpecialDollar(script)
    ensures InsertScriptAsWritten(html, script) == InsertScript(html, script)
  {
    assert NoSpecialDollar(HeadClose);
    ReplaceWithoutSpecialDollar(html, HeadClose, script);
  }

  /** The `$.get` that the script's template mentions is no substitution and survives the insertion intact. */
  lemma DollarGetIsLiteral(before: string, matched: string, after: string)
    ensures NoSpecialDollar("$.get")
    ensures Expand("$.get", before, matched, after) == "$.get"
  {
    assert "$.get"[1] == '.';
  }

  /** A `$&` in the inlined data becomes a second `</head>` instead of staying in the script. */
  lemma DollarAmpersandCorrupts()
    ensures InsertScriptAsWritten(HeadClose, "$&") == HeadClose + "\n" + HeadClose
    ensures InsertScript(HeadClose, "$&") == "$&\n" + HeadClose
  {
    assert OccursAt(HeadClose, HeadClose, 0);
    var repl := "$&" + "\n" + HeadClose;
    assert repl[2..] == "\n" + HeadClose;
    assert NoSpecialDollar("\n" + HeadClose);
    assert HeadClose[..0] == "" && HeadClose[7..] == "";
  }

  /** Where a match of the removal pattern begins, and where it ends (exclusive). */
  datatype Span = Span(start: nat, end: nat)

  /**
   * The leftmost match of the lazy pattern `open … marker … close`: it starts
   * at the first `open` (a later start can only see fewer markers and closing
   * tags), runs to the first `marker` after it and then through the first
   * `close` after that.
   */
  function FirstMatch(h: string, open: string, marker: string, close: string): (r: Option<Span>)
    requires |open| > 0
    ensures r.Some? ==> r.value.start < r.value.end <= |h|
  {
    var i := IndexOf(h, open);
    if i < 0 then None
    else
      var j := IndexFrom(h, marker, i + |open|);
      if j < 0 then None
      else
        var e := IndexFrom(h, close, j + |marker|);
        if e < 0 then None
        else Some(Span(i, e + |close|))
  }

  /** The global pattern replaced by nothing: each match is dropped and the search resumes after it. */
  function RemoveMarked(h: string, open: string, marker: string, close: string): (r: string)
    requires |open| > 0
    decreases |h|
    ensures |r| <= |h|
    ensures FirstMatch(h, open, marker, close).None? ==> r == h
  {
    match FirstMatch(h, open, marker, close)
    case None => h
    case Some(m) => h[..m.start] + RemoveMarked(h[m.end..], open, marker, close)
  }

  /** Without the marker there is no match. */
  lemma NoMarkerNoMatch(h: string, open: string, marker: string, close: string)
    requires |open| > 0 && !Contains(h, marker)
    ensures FirstMatch(h, open, marker, close).None?
  {
    var i := IndexOf(h, open);
    if i >= 0 {
      var j := IndexFrom(h, marker, i + |open|);
      if j >= 0 {
        ContainsWitness(h, marker, j);
      }
    }
  }

  /** The removal pattern of the source: `<script>`, then the marker, then `</script>`. */
  function RemoveBlocks(h: string): string {
    RemoveMarked(h, ScriptOpen, BlockMarker, ScriptClose)
  }

  /** The rerun step of one run: drop the old blocks when the marker is present. */
  function Cleared(html: string): (h: string)
    ensures |h| <= |html|
    ensures !Contains(html, DetectMarker) ==> h == html
  {
    if Contains(html, DetectMarker) then RemoveBlocks(html) else html
  }

  /** One run over `index.html`, with the insertion as intended. */
  function FixHtml(html: string, script: string): (r: string)
    ensures |r| <= |html| + |script| + 1
  {
    InsertScript(Cleared(html), script)
  }

  /** A run on a page without inlined data and with a `</head>` adds the script and one newline, and nothing else. */
  lemma FirstRunAddsScript(html: string, script: string)
    requires !Contains(html, DetectMarker) && Contains(html, HeadClose)
    ensures |FixHtml(html, script)| == |html| + |script| + 1
    ensures Contains(FixHtml(html, script), script)
  {
    var i := IndexOf(html, HeadClose);
    var r := InsertScript(html, script);
    assert OccursAt(r, script, i);
    ContainsWitness(r, script, i);
  }

  /** One run over `index.html` as written, with `String.prototype.replace` expanding the script. */
  function FixHtmlAsWritten(html: string, script: string): string {
    InsertScriptAsWritten(Cleared(html), script)
  }

  /** `n` runs one after the other. */
  function FixRuns(html: string, script: string, n: nat): (r: string)
    decreases n
    ensures |r| <= |html| + n * (|script| + 1)
  {
    if n == 0 then html else FixHtml(FixRuns(html, script, n - 1), script)
  }

  /** `n` runs as written. */
  function FixRunsAsWritten(html: string, script: string, n: nat): string
    decreases n
  {
    if n == 0 then html else FixHtmlAsWritten(FixRunsAsWritten(html, script, n - 1), script)
  }

  /** Without a substitution in the script, one run as written gives the intended page. */
  lemma RunAgreesWithoutSpecialDollar(html: string, script: string)
    requires NoSpecialDollar(script)
    ensures FixHtmlAsWritten(html, script) == FixHtml(html, script)
  {
    InsertAgreesWithoutSpecialDollar(Cleared(html), script);
  }

  /** After `n` runs, the fixer as written and the intended one have produced the same page. */
  predicate AgreeAfter(html: string, script: string, n: nat) {
    FixRunsAsWritten(html, script, n) == FixRuns(html, script, n)
  }

  /** Runs that agree up to `m` agree at `m + 1` when that run does. */
  lemma RunsStep(html: string, script: string, m: nat, h: string)
    requires AgreeAfter(html, script, m) && h == FixRuns(html, script, m)
    requires FixHtmlAsWritten(h, script) == FixHtml(h, script)
    ensures AgreeAfter(html, script, m + 1)
  {
  }

  /** Without a substitution in the script, any number of runs as written give the intended page. */
  lemma {:induction false} RunsAgreeWithoutSpecialDollar(html: string, script: string, n: nat)
    requires NoSpecialDollar(script)
    decreases n
    ensures AgreeAfter(html, script, n)
  {
    if n > 0 {
      var m: nat := n - 1;
      var h := FixRuns(html, script, m);
      RunsAgreeWithoutSpecialDollar(html, script, m);
      RunAgreesWithoutSpecialDollar(h, script);
      RunsStep(html, script, m, h);
    }
  }

  /**
   * What the rerun argument needs of the generated script: it opens with
   * `<script>` and ends with a newline, and the first `</script>` after its
   * first marker is the one just before that newline.
   */
  predicate WellFormedScript(script: string) {
    ScriptOpen <= script && |script| > |ScriptClose| && script[|script| - 1] == '\n' &&
    IndexFrom(script, BlockMarker, |ScriptOpen|) >= 0 &&
    IndexFrom(script, ScriptClose, IndexFrom(script, BlockMarker, |ScriptOpen|) + |BlockMarker|)
      == |script| - |ScriptClose| - 1
  }

  /** The first character of `pat` does not recur in it. */
  predicate Unrepeated(pat: string) {
    |pat| > 0 && forall k :: 0 < k < |pat| ==> pat[k] != pat[0]
  }

  lemma TagsUnrepeated()
    ensures Unrepeated(ScriptOpen) && Unrepeated(HeadClose)
  {
  }

  /** The match the three searches find. */
  lemma MatchFromIndices(h: string, open: string, marker: string, close: string, i: nat, j: nat, e: nat)
    requires |open| > 0
    requires i == IndexOf(h, open)
    requires j == IndexFrom(h, marker, i + |open|)
    requires e == IndexFrom(h, close, j + |marker|)
    ensures FirstMatch(h, open, marker, close) == Some(Span(i, e + |close|))
  {
  }

  lemma OpenAtJoin(p: string, rest: string, script: string, open: string)
    requires Unrepeated(open) && open <= script && !Contains(p, open)
    ensures IndexOf(p + script + rest, open) == |p|
  {
    assert p + script + rest == p + (script + rest);
    FirstAtJoin(p, script + rest, open);
  }

  /**
   * In `p + script + rest`, where `p` has no `open` and `script` opens with
   * it, the first match is the script up to its final character.
   */
  lemma FramedMatch(p: string, rest: string, script: string, open: string, marker: string, close: string, m: nat)
    requires Unrepeated(open) && open <= script && !Contains(p, open)
    requires m == IndexFrom(script, marker, |open|)
    requires |script| > |close| && IndexFrom(script, close, m + |marker|) == |script| - |close| - 1
    ensures FirstMatch(p + script + rest, open, marker, close) == Some(Span(|p|, |p| + |script| - 1))
  {
    var h := p + script + rest;
    OpenAtJoin(p, rest, script, open);
    IndexFromInside(p, script, rest, marker, |open|);
    IndexFromInside(p, script, rest, close, m + |marker|);
    var e := |p| + |script| - |close| - 1;
    MatchFromIndices(h, open, marker, close, |p|, |p| + m, e);
    assert e + |close| == |p| + |script| - 1;
    assert FirstMatch(h, open, marker, close) == Some(Span(|p|, e + |close|));
    assert Span(|p|, e + |close|) == Span(|p|, |p| + |script| - 1);
  }

  /** A single match, with nothing matching after it, is all that is removed. */
  lemma RemoveSingle(h: string, open: string, marker: string, close: string, sp: Span)
    requires |open| > 0 && FirstMatch(h, open, marker, close) == Some(sp)
    requires FirstMatch(h[sp.end..], open, marker, close).None?
    ensures RemoveMarked(h, open, marker, close) == h[..sp.start] + h[sp.end..]
  {
  }

  /** The framed script is the first match, and what follows it holds none. */
  lemma RemoveFramed(p: string, rest: string, script: string, open: string, marker: string, close: string, m: nat)
    requires Unrepeated(open) && open <= script && !Contains(p, open)
    requires m == IndexFrom(script, marker, |open|)
    requires |script| > |close| && IndexFrom(script, close, m + |marker|) == |script| - |close| - 1
    requires script[|script| - 1] == '\n' && !Contains("\n" + rest, marker)
    ensures RemoveMarked(p + script + rest, open, marker, close) == p + "\n" + rest
  {
    FramedMatch(p, rest, script, open, marker, close, m);
    TailAfterNewline(p, script, rest);
    HeadOfJoin(p, script, rest);
    NoMarkerNoMatch("\n" + rest, open, marker, close);
    RemoveOnly(p + script + rest, p, "\n" + rest, open, marker, close, Span(|p|, |p| + |script| - 1));
  }

  /** What follows a script that ends in a newline: that newline, then the rest. */
  lemma TailAfterNewline(p: string, script: string, rest: string)
    requires |script| > 0 && script[|script| - 1] == '\n'
    ensures (p + script + rest)[|p| + |script| - 1..] == "\n" + rest
  {
    TailFromMiddle(p, script, rest, |script| - 1);
    assert script[|script| - 1..] == "\n";
  }

  /** A match with `p` before it and `tail` after it, and none in `tail`, leaves `p + tail`. */
  lemma RemoveOnly(h: string, p: string, tail: string, open: string, marker: string, close: string, sp: Span)
    requires |open| > 0 && FirstMatch(h, open, marker, close) == Some(sp)
    requires h[..sp.start] == p && h[sp.end..] == tail
    requires FirstMatch(tail, open, marker, close).None?
    ensures RemoveMarked(h, open, marker, close) == p + tail
  {
    RemoveSingle(h, open, marker, close, sp);
  }

  /** A string of `n` newlines. */
  function Newlines(n: nat): (w: string)
    ensures |w| == n && forall k :: 0 <= k < n ==> w[k] == '\n'
  {
    if n == 0 then "" else Newlines(n - 1) + "\n"
  }

  /** The head before `</head>` holds no `<script>` and no `</head>`. */
  predicate PlainHead(p: string) {
    !Contains(p, ScriptOpen) && !Contains(p, HeadClose)
  }

  /** Newlines added to a plain head keep it plain. */
  lemma PlainHeadNewlines(p: string, n: nat)
    requires PlainHead(p)
    ensures PlainHead(p + Newlines(n))
  {
    ContainsAppendForeign(p, Newlines(n), ScriptOpen, '\n');
    ContainsAppendForeign(p, Newlines(n), HeadClose, '\n');
  }

  /** The removal pattern's marker includes the detection marker. */
  lemma DetectInBlockMarker()
    ensures Contains(BlockMarker, DetectMarker)
  {
    assert BlockMarker[7..] == DetectMarker;
    ContainsWitness(BlockMarker, DetectMarker, 7);
  }

  /** A newline in front of text without the marker brings no marker in. */
  lemma NewlineKeepsNoMarker(u: string)
    requires !Contains(u, DetectMarker)
    ensures !Contains("\n" + u, DetectMarker)
  {
    var v := "\n" + u;
    forall j: nat | j <= |v|
      ensures !OccursAt(v, DetectMarker, j)
    {
      if j == 0 {
        if |DetectMarker| <= |v| {
          Mismatch(v, DetectMarker, 0, 0);
        }
      } else if OccursAt(v, DetectMarker, j) {
        assert v[j..j + |DetectMarker|] == u[j - 1..j - 1 + |DetectMarker|];
        ContainsWitness(u, DetectMarker, j - 1);
      }
    }
  }

  /** Text without the detection marker has no removal marker either. */
  lemma NoBlockMarker(u: string)
    requires !Contains(u, DetectMarker)
    ensures !Contains(u, BlockMarker)
  {
    if Contains(u, BlockMarker) {
      DetectInBlockMarker();
      ContainsTrans(u, BlockMarker, DetectMarker);
    }
  }

  /** The output of an earlier run carries the marker, so a rerun takes the removal branch. */
  lemma DataBlockDetected(p: string, rest: string, script: string)
    requires WellFormedScript(script)
    ensures Contains(p + script + rest, DetectMarker)
  {
    var m := IndexFrom(script, BlockMarker, |ScriptOpen|);
    ContainsWitness(script, BlockMarker, m);
    DetectInBlockMarker();
    ContainsTrans(script, BlockMarker, DetectMarker);
    ContainsMiddle(p, script, rest, DetectMarker);
  }

  /** The first run on a report that has no inlined data puts the script right before `</head>`. */
  lemma FirstRun(p: string, t: string, script: string)
    requires PlainHead(p) && HeadClose <= t && !Contains(p + t, DetectMarker)
    ensures FixHtml(p + t, script) == p + script + "\n" + t
  {
    TagsUnrepeated();
    FirstAtJoin(p, t, HeadClose);
    assert (p + t)[..|p|] == p && (p + t)[|p|..] == t;
  }

  /**
   * A rerun on the output of an earlier run removes exactly the earlier data
   * block and inserts the new one at the same place; two newlines are all that
   * is left of the old block.
   */
  lemma Rerun(p: string, t: string, script: string)
    requires WellFormedScript(script)
    requires PlainHead(p) && HeadClose <= t && !Contains(t, DetectMarker)
    ensures FixHtml(p + script + "\n" + t, script) == p + "\n\n" + script + "\n" + t
  {
    var h := p + script + "\n" + t;
    DataBlockDetected(p, "\n" + t, script);
    assert h == p + script + ("\n" + t);
    RerunRemoves(p, t, script);
    RerunInserts(p, t, script);
    assert FixHtml(h, script) == InsertScript(p + "\n\n" + t, script);
  }

  /** The removal step of a rerun, for any pattern the framed script fits. */
  lemma RemoveAfterRun(p: string, t: string, script: string, open: string, marker: string, close: string, m: nat)
    requires Unrepeated(open) && open <= script && !Contains(p, open)
    requires m == IndexFrom(script, marker, |open|)
    requires |script| > |close| && IndexFrom(script, close, m + |marker|) == |script| - |close| - 1
    requires script[|script| - 1] == '\n' && !Contains("\n\n" + t, marker)
    ensures RemoveMarked(p + script + "\n" + t, open, marker, close) == p + "\n\n" + t
  {
    var rest := "\n" + t;
    assert "\n" + "\n" == "\n\n";
    Assoc(p + script, "\n", t);
    Assoc("\n", "\n", t);
    RemoveFramed(p, rest, script, open, marker, close, m);
    Assoc(p, "\n", rest);
    Assoc(p, "\n", "\n");
    Assoc(p + "\n", "\n", t);
  }

  /** The removal step of a rerun leaves two newlines where the old data block was. */
  lemma RerunRemoves(p: string, t: string, script: string)
    requires WellFormedScript(script)
    requires PlainHead(p) && !Contains(t, DetectMarker)
    ensures RemoveBlocks(p + script + "\n" + t) == p + "\n\n" + t
  {
    NewlineKeepsNoMarker(t);
    NewlineKeepsNoMarker("\n" + t);
    assert "\n" + ("\n" + t) == "\n\n" + t;
    NoBlockMarker("\n\n" + t);
    TagsUnrepeated();
    RemoveAfterRun(p, t, script, ScriptOpen, BlockMarker, ScriptClose, IndexFrom(script, BlockMarker, |ScriptOpen|));
  }

  /** The insertion step of a rerun puts the script after those newlines. */
  lemma RerunInserts(p: string, t: string, script: string)
    requires PlainHead(p) && HeadClose <= t
    ensures InsertScript(p + "\n\n" + t, script) == p + "\n\n" + script + "\n" + t
  {
    var u := p + "\n\n" + t;
    PlainHeadNewlines(p, 2);
    assert Newlines(2) == "\n\n";
    TagsUnrepeated();
    FirstAtJoin(p + "\n\n", t, HeadClose);
    assert u[..|p| + 2] == p + "\n\n";
    assert u[|p| + 2..] == t;
  }

  lemma TailOfUnmarked(p: string, t: string)
    requires !Contains(p + t, DetectMarker)
    ensures !Contains(t, DetectMarker)
  {
    if Contains(t, DetectMarker) {
      assert (p + t)[|p|..] == t;
      ContainsSlice(p + t, DetectMarker, |p|);
    }
  }

  /** A rerun after `k` newlines have piled up adds two more. */
  lemma RerunAfter(p: string, t: string, script: string, k: nat)
    requires WellFormedScript(script)
    requires PlainHead(p) && HeadClose <= t && !Contains(t, DetectMarker)
    ensures FixHtml(p + Newlines(k) + script + "\n" + t, script) == p + Newlines(k + 2) + script + "\n" + t
  {
    var q := p + Newlines(k);
    PlainHeadNewlines(p, k);
    Rerun(q, t, script);
    assert Newlines(k + 1) == Newlines(k) + "\n";
    assert Newlines(k + 2) == Newlines(k + 1) + "\n";
    assert q + "\n\n" == p + Newlines(k + 2);
  }

  /**
   * However often the fixer runs on a report that had no inlined data, the page
   * holds exactly one data script, right before the first `</head>`, preceded by
   * two newlines per rerun.
   */
  lemma {:induction false} RepeatedRuns(p: string, t: string, script: string, n: nat)
    requires WellFormedScript(script)
    requires PlainHead(p) && HeadClose <= t && !Contains(p + t, DetectMarker)
    requires n >= 1
    ensures FixRuns(p + t, script, n) == p + Newlines(2 * (n - 1)) + script + "\n" + t
  {
    if n == 1 {
      FirstRun(p, t, script);
      assert p + Newlines(0) == p;
    } else {
      RepeatedRuns(p, t, script, n - 1);
      TailOfUnmarked(p, t);
      var k := 2 * (n - 2);
      RerunAfter(p, t, script, k);
      assert 2 * (n - 1) == k + 2;
    }
  }

  /** The repeated-run result carries over to the fixer as written when the script has no substitution. */
  lemma RepeatedRunsAsWritten(p: string, t: string, script: string, n: nat)
    requires WellFormedScript(script) && NoSpecialDollar(script)
    requires PlainHead(p) && HeadClose <= t && !Contains(p + t, DetectMarker)
    requires n >= 1
    ensures FixRunsAsWritten(p + t, script, n) == p + Newlines(2 * (n - 1)) + script + "\n" + t
  {
    RunsAgreeWithoutSpecialDollar(p + t, script, n);
    RepeatedRuns(p, t, script, n);
  }
}
