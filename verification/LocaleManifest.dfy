/** The locale manifest: one file per language, discovered by listing a directory, checked, and put
    in an order that does not depend on the listing. */
module LocaleManifest {
  import opened Common

  /** The fields of a file's metadata literal, none where the literal lacks them. */
  datatype Literal = Literal(code: Option<string>, nativeName: Option<string>, dir: Option<string>, intl: Option<string>)

  /** A directory entry, with the metadata literal that its text exports, if it does. */
  datatype File = File(name: string, isFile: bool, literal: Option<Literal>)

  datatype Direction = Rtl | Ltr
  datatype Locale = Locale(code: string, nativeName: string, dir: Direction, intl: string, modulePath: string)

  datatype Fault = NoLiteral | MissingFields | BadDirection | InvalidTag | NotCanonical | NameMismatch
  datatype Result<T> = Ok(value: T) | BadFile(name: string, fault: Fault) | NoArabic | Duplicate

  /** What the platform knows of language tags: their canonical form, and how it collates them. */
  datatype Platform = Platform(canonical: string -> Option<string>, before: (string, string) -> bool)

  const SUFFIX := ".locale.ts"

  predicate EndsWith(s: string, end: string) {
    |end| <= |s| && s[|s| - |end|..] == end
  }

  function Field(value: Option<string>): string {
    if value.Some? then value.value else ""
  }

  function Metadata(p: Platform, file: File): (r: Result<Locale>)
    ensures r.Ok? || r.BadFile?
    ensures r.Ok? ==> file.name == r.value.code + SUFFIX
  {
    if file.literal.None? then BadFile(file.name, NoLiteral)
    else
      var l := file.literal.value;
      var code, dir, intl := Field(l.code), Field(l.dir), Field(l.intl);
      if code == "" || Trim(Field(l.nativeName)) == "" || dir == "" || intl == "" then BadFile(file.name, MissingFields)
      else if dir != "rtl" && dir != "ltr" then BadFile(file.name, BadDirection)
      else if p.canonical(code).None? || p.canonical(intl).None? then BadFile(file.name, InvalidTag)
      else if p.canonical(code) != Some(code) || p.canonical(intl) != Some(intl) then BadFile(file.name, NotCanonical)
      else if file.name != code + SUFFIX then BadFile(file.name, NameMismatch)
      else Ok(Locale(code, Field(l.nativeName), if dir == "rtl" then Rtl else Ltr, intl, "./locales/" + file.name))
  }

  /** The metadata of a locale, as its file spells it. */
  function Spelled(x: Locale): Literal {
    Literal(Some(x.code), Some(x.nativeName), Some(if x.dir.Rtl? then "rtl" else "ltr"), Some(x.intl))
  }

  /** A file is good exactly if its literal spells a locale with a code and a collation tag in canonical form, a
      name that is not blank, and a direction, and the file is named after the code; that is then its locale. */
  lemma MetadataIsSpelledOut(p: Platform, file: File, x: Locale)
    ensures Metadata(p, file) == Ok(x) <==>
      && file.literal == Some(Spelled(x)) && file.name == x.code + ".locale.ts" && x.modulePath == "./locales/" + file.name
      && x.code != "" && x.intl != "" && Trim(x.nativeName) != ""
      && p.canonical(x.code) == Some(x.code) && p.canonical(x.intl) == Some(x.intl)
  {
    assert Trim("") == "";
    hide Trim;
  }

  predicate IsLocaleFile(file: File) {
    file.isFile && EndsWith(file.name, SUFFIX)
  }

  /** The files of the listing, in its order; the first bad one stops it. */
  function Entries(p: Platform, files: seq<File>): (r: Result<seq<Locale>>)
    ensures r.Ok? || r.BadFile?
  {
    if files == [] then Ok([])
    else if !IsLocaleFile(files[0]) then Entries(p, files[1..])
    else
      match Metadata(p, files[0])
      case BadFile(name, fault) => BadFile(name, fault)
      case Ok(first) =>
        var others := Entries(p, files[1..]);
        if others.Ok? then Ok([first] + others.value) else others
  }

  const ARABIC := "ar"

  /** The comparison that sorts the manifest, read as "not after". */
  predicate NotAfter(p: Platform, a: Locale, b: Locale) {
    if a.code == ARABIC then true
    else if b.code == ARABIC then false
    else !p.before(b.code, a.code)
  }

  function Insert(p: Platform, x: Locale, sorted: seq<Locale>): seq<Locale> {
    if sorted == [] || NotAfter(p, x, sorted[0]) then [x] + sorted
    else [sorted[0]] + Insert(p, x, sorted[1..])
  }

  function Sort(p: Platform, entries: seq<Locale>): seq<Locale> {
    if entries == [] then [] else Insert(p, entries[0], Sort(p, entries[1..]))
  }

  predicate HasCode(entries: seq<Locale>, code: string) {
    exists i :: 0 <= i < |entries| && entries[i].code == code
  }

  predicate Unique(entries: seq<Locale>) {
    forall i, j | 0 <= i < j < |entries| :: entries[i].code != entries[j].code
  }

  function Discover(p: Platform, files: seq<File>): Result<seq<Locale>> {
    match Entries(p, files)
    case BadFile(name, fault) => BadFile(name, fault)
    case Ok(found) =>
      var entries := Sort(p, found);
      if !HasCode(entries, ARABIC) then NoArabic
      else if !Unique(entries) then Duplicate
      else Ok(entries)
  }

  // ---- What a directory and a platform are ----

  /** A directory holds each name once. */
  predicate Directory(files: seq<File>) {
    forall i, j | 0 <= i < j < |files| :: files[i].name != files[j].name
  }

  /** The tags of a listing's good files. */
  function Tags(p: Platform, files: seq<File>): set<string> {
    set f | f in files && IsLocaleFile(f) && Metadata(p, f).Ok? :: Metadata(p, f).value.code
  }

  /** Collation puts any two of these tags in one of the two orders, and does so consistently. */
  ghost predicate Collates(p: Platform, tags: set<string>) {
    && (forall a, b | a in tags && b in tags && a != b :: p.before(a, b) || p.before(b, a))
    && (forall a, b | a in tags && b in tags && p.before(a, b) :: !p.before(b, a))
    && (forall a, b, c | a in tags && b in tags && c in tags && p.before(a, b) && p.before(b, c) :: p.before(a, c))
  }

  predicate Within(entries: seq<Locale>, tags: set<string>) {
    forall x | x in entries :: x.code in tags
  }

  /** A listing that the build accepts, file by file. */
  predicate AllGood(p: Platform, files: seq<File>) {
    forall i | 0 <= i < |files| && IsLocaleFile(files[i]) :: Metadata(p, files[i]).Ok?
  }

  // ---- Entries ----

  lemma {:induction false} EntriesAreTheGoodFiles(p: Platform, files: seq<File>)
    ensures Entries(p, files).Ok? <==> AllGood(p, files)
    ensures Entries(p, files).Ok? ==> forall x ::
      x in Entries(p, files).value <==> exists f :: f in files && IsLocaleFile(f) && Metadata(p, f) == Ok(x)
  {
    if files != [] {
      EntriesAreTheGoodFiles(p, files[1..]);
      assert files == [files[0]] + files[1..];
      forall i | 0 <= i < |files[1..]| ensures files[1..][i] == files[i + 1] {}
    }
  }

  lemma EntryHasAFile(p: Platform, files: seq<File>, found: seq<Locale>, j: nat)
    requires Entries(p, files) == Ok(found) && j < |found|
    ensures exists k :: 0 <= k < |files| && files[k].name == found[j].code + SUFFIX
  {
    EntriesAreTheGoodFiles(p, files);
    hide Entries, Metadata;
    assert found[j] in found;
    var f :| f in files && IsLocaleFile(f) && Metadata(p, f) == Ok(found[j]);
    var k :| 0 <= k < |files| && files[k] == f;
  }

  /** A file's name is its code with the suffix, so distinct names give distinct codes. */
  lemma {:induction false} EntriesAreUnique(p: Platform, files: seq<File>)
    requires Directory(files) && Entries(p, files).Ok?
    ensures Unique(Entries(p, files).value)
  {
    if files != [] {
      forall i, j | 0 <= i < j < |files[1..]| ensures files[1..][i].name != files[1..][j].name {
        assert files[1..][i] == files[i + 1] && files[1..][j] == files[j + 1];
      }
      EntriesAreUnique(p, files[1..]);
      if IsLocaleFile(files[0]) {
        var first, others := Metadata(p, files[0]).value, Entries(p, files[1..]).value;
        assert Entries(p, files).value == [first] + others;
        hide Entries, Metadata;
        forall j | 0 <= j < |others| ensures first.code != others[j].code {
          EntryHasAFile(p, files[1..], others, j);
          var k :| 0 <= k < |files[1..]| && files[1..][k].name == others[j].code + SUFFIX;
          assert files[0].name != files[k + 1].name;
        }
      }
    }
  }

  // ---- Sorting ----

  predicate Sorted(p: Platform, entries: seq<Locale>) {
    forall i, j | 0 <= i < j < |entries| :: NotAfter(p, entries[i], entries[j])
  }

  lemma NotAfterIsAnOrder(p: Platform, tags: set<string>, a: Locale, b: Locale, c: Locale)
    requires Collates(p, tags) && a.code in tags && b.code in tags && c.code in tags
    ensures NotAfter(p, a, b) || NotAfter(p, b, a)
    ensures NotAfter(p, a, b) && NotAfter(p, b, c) ==> NotAfter(p, a, c)
    ensures NotAfter(p, a, b) && NotAfter(p, b, a) ==> a.code == b.code
  {
  }

  lemma {:induction false} InsertKeepsSorted(p: Platform, tags: set<string>, x: Locale, sorted: seq<Locale>)
    requires Collates(p, tags) && Sorted(p, sorted) && x.code in tags && Within(sorted, tags)
    ensures Sorted(p, Insert(p, x, sorted)) && multiset(Insert(p, x, sorted)) == multiset(sorted) + multiset{x}
  {
    hide NotAfter, Collates;
    if sorted == [] || NotAfter(p, x, sorted[0]) {
      forall j | 0 <= j < |sorted| ensures NotAfter(p, x, sorted[j]) {
        NotAfterIsAnOrder(p, tags, x, sorted[0], sorted[j]);
        NotAfterIsAnOrder(p, tags, sorted[0], sorted[0], sorted[0]);
      }
    } else {
      var rest := sorted[1..];
      assert sorted == [sorted[0]] + rest;
      InsertKeepsSorted(p, tags, x, rest);
      var inserted := Insert(p, x, rest);
      NotAfterIsAnOrder(p, tags, x, sorted[0], x);
      forall j | 0 <= j < |inserted| ensures NotAfter(p, sorted[0], inserted[j]) {
        assert inserted[j] in multiset(inserted);
        assert inserted[j] == x || inserted[j] in rest;
      }
    }
  }

  lemma {:induction false} SortSorts(p: Platform, tags: set<string>, entries: seq<Locale>)
    requires Collates(p, tags) && Within(entries, tags)
    ensures Sorted(p, Sort(p, entries)) && multiset(Sort(p, entries)) == multiset(entries) && Within(Sort(p, entries), tags)
  {
    if entries != [] {
      SortSorts(p, tags, entries[1..]);
      InsertKeepsSorted(p, tags, entries[0], Sort(p, entries[1..]));
      assert entries == [entries[0]] + entries[1..];
    }
    var sorted := Sort(p, entries);
    assert multiset(sorted) == multiset(entries);
    forall x | x in sorted ensures x.code in tags {
      assert x in multiset(sorted);
    }
  }

  /** There is only one sorted list of given entries with distinct codes, so any way of sorting by
      this comparison gives the same manifest. */
  lemma {:induction false} SortedIsUnique(p: Platform, tags: set<string>, a: seq<Locale>, b: seq<Locale>)
    requires Collates(p, tags) && Within(a, tags) && Sorted(p, a) && Sorted(p, b) && Unique(a) && Unique(b)
    requires forall x :: x in a <==> x in b
    ensures a == b
  {
    if a == [] {
      HasAnElement(b);
    } else {
      assert a[0] in b && (b[0] in b);
      var i :| 0 <= i < |b| && b[i] == a[0];
      var j :| 0 <= j < |a| && a[j] == b[0];
      NotAfterIsAnOrder(p, tags, a[0], b[0], a[0]);
      assert a[0] == b[0];
      forall x ensures x in a[1..] <==> x in b[1..] {
        TailHasTheOthers(a, x);
        TailHasTheOthers(b, x);
      }
      SortedIsUnique(p, tags, a[1..], b[1..]);
      assert a == [a[0]] + a[1..] && b == [b[0]] + b[1..];
    }
  }

  lemma HasAnElement(s: seq<Locale>)
    ensures s != [] ==> exists x :: x in s
  {
    if s != [] {
      assert s[0] in s;
    }
  }

  lemma TailHasTheOthers(s: seq<Locale>, x: Locale)
    requires s != [] && Unique(s)
    ensures x in s[1..] <==> x in s && x != s[0]
  {
    assert s == [s[0]] + s[1..];
  }

  lemma SameElements(a: seq<Locale>, b: seq<Locale>)
    requires multiset(a) == multiset(b)
    ensures forall x :: x in a <==> x in b
    ensures Unique(a) ==> Unique(b)
  {
    forall x ensures x in a <==> x in b {
      assert x in a <==> x in multiset(a);
      assert x in b <==> x in multiset(b);
    }
    if Unique(a) {
      forall i, j | 0 <= i < j < |b| ensures b[i].code != b[j].code {
        if b[i].code == b[j].code {
          assert b[i] in a && b[j] in a;
          var k :| 0 <= k < |a| && a[k] == b[i];
          var l :| 0 <= l < |a| && a[l] == b[j];
          assert k == l;
          assert b == b[..i] + [b[i]] + b[i + 1..j] + [b[j]] + b[j + 1..];
          assert multiset(b)[b[i]] >= 2;
          OnceIfUnique(a, k);
        }
      }
    }
  }

  lemma OnceIfUnique(a: seq<Locale>, k: nat)
    requires Unique(a) && k < |a|
    ensures multiset(a)[a[k]] == 1
  {
    assert a == a[..k] + [a[k]] + a[k + 1..];
    assert a[k] !in a[..k] && a[k] !in a[k + 1..];
  }

  // ---- The manifest ----

  predicate HasArabicFile(files: seq<File>) {
    exists i :: 0 <= i < |files| && IsLocaleFile(files[i]) && files[i].name == ARABIC + SUFFIX
  }

  /** The directory is accepted exactly when every locale file is good and the Arabic one is there:
      a duplicate code is never what stops it. The manifest then lists each of them once, Arabic
      first and the others in collation order. */
  lemma Manifest(p: Platform, files: seq<File>)
    requires Directory(files) && Collates(p, Tags(p, files))
    ensures Discover(p, files).Ok? <==> AllGood(p, files) && HasArabicFile(files)
    ensures Discover(p, files) != Duplicate
    ensures Discover(p, files).Ok? ==>
      var manifest := Discover(p, files).value;
      && Unique(manifest) && manifest != [] && manifest[0].code == ARABIC
      && (forall i, j | 1 <= i < j < |manifest| :: p.before(manifest[i].code, manifest[j].code))
      && (forall x :: x in manifest <==> exists f :: f in files && IsLocaleFile(f) && Metadata(p, f) == Ok(x))
  {
    EntriesAreTheGoodFiles(p, files);
    if Entries(p, files).Ok? {
      var found := Entries(p, files).value;
      EntriesAreUnique(p, files);
      FoundAreWithin(p, files);
      SortSorts(p, Tags(p, files), found);
      var sorted := Sort(p, found);
      SameElements(found, sorted);
      ArabicIsFoundIffFiled(p, files);
      HasCodeOfSame(found, sorted, ARABIC);
      HasCodeOfSame(sorted, found, ARABIC);
      if HasCode(sorted, ARABIC) {
        ArabicIsFirst(p, Tags(p, files), sorted);
      }
    }
  }

  lemma ArabicIsFoundIffFiled(p: Platform, files: seq<File>)
    requires Entries(p, files).Ok?
    ensures HasCode(Entries(p, files).value, ARABIC) <==> HasArabicFile(files)
  {
    EntriesAreTheGoodFiles(p, files);
    hide Entries, Metadata;
    var found := Entries(p, files).value;
    if HasCode(found, ARABIC) {
      var i :| 0 <= i < |found| && found[i].code == ARABIC;
      assert found[i] in found;
      var f :| f in files && IsLocaleFile(f) && Metadata(p, f) == Ok(found[i]);
      var k :| 0 <= k < |files| && files[k] == f;
    }
    if HasArabicFile(files) {
      var k :| 0 <= k < |files| && IsLocaleFile(files[k]) && files[k].name == ARABIC + SUFFIX;
      var x := Metadata(p, files[k]).value;
      assert files[k] in files;
      CodeOfName(x.code, ARABIC);
      var i :| 0 <= i < |found| && found[i] == x;
    }
  }

  lemma CodeOfName(a: string, b: string)
    requires a + SUFFIX == b + SUFFIX
    ensures a == b
  {
    assert |a| == |b| && a == (a + SUFFIX)[..|a|] && b == (b + SUFFIX)[..|b|];
  }

  lemma HasCodeOfSame(a: seq<Locale>, b: seq<Locale>, code: string)
    requires forall x :: x in a <==> x in b
    ensures HasCode(a, code) ==> HasCode(b, code)
  {
    if HasCode(a, code) {
      var i :| 0 <= i < |a| && a[i].code == code;
      assert a[i] in b;
    }
  }

  lemma FoundAreWithin(p: Platform, files: seq<File>)
    requires Entries(p, files).Ok?
    ensures Within(Entries(p, files).value, Tags(p, files))
  {
    EntriesAreTheGoodFiles(p, files);
    hide Entries, Metadata;
  }

  lemma ArabicIsFirst(p: Platform, tags: set<string>, sorted: seq<Locale>)
    requires Collates(p, tags) && Within(sorted, tags) && Sorted(p, sorted) && Unique(sorted) && HasCode(sorted, ARABIC)
    ensures sorted[0].code == ARABIC
    ensures forall i, j | 1 <= i < j < |sorted| :: p.before(sorted[i].code, sorted[j].code)
  {
    var k :| 0 <= k < |sorted| && sorted[k].code == ARABIC;
    assert sorted[0].code == ARABIC by {
      assert k > 0 ==> NotAfter(p, sorted[0], sorted[k]);
    }
    forall i, j | 1 <= i < j < |sorted| ensures p.before(sorted[i].code, sorted[j].code) {
      assert NotAfter(p, sorted[i], sorted[j]) && sorted[0].code != sorted[i].code && sorted[0].code != sorted[j].code;
    }
  }

  /** The manifest does not depend on the order in which the directory is listed; nor does whether
      there is one. */
  lemma ListingOrderDoesNotMatter(p: Platform, files: seq<File>, files': seq<File>)
    requires Directory(files) && Directory(files') && Collates(p, Tags(p, files))
    requires forall f :: f in files <==> f in files'
    ensures Discover(p, files).Ok? <==> Discover(p, files').Ok?
    ensures Discover(p, files).Ok? ==> Discover(p, files) == Discover(p, files')
  {
    Manifest(p, files);
    SameTags(p, files, files');
    Manifest(p, files');
    GoodIsAboutTheFiles(p, files, files');
    GoodIsAboutTheFiles(p, files', files);
    if Discover(p, files).Ok? {
      var tags := Tags(p, files);
      FoundAreWithin(p, files);
      FoundAreWithin(p, files');
      SortSorts(p, tags, Entries(p, files).value);
      SortSorts(p, tags, Entries(p, files').value);
      SortedIsUnique(p, tags, Discover(p, files).value, Discover(p, files').value);
    }
  }

  lemma SameTags(p: Platform, files: seq<File>, files': seq<File>)
    requires forall f :: f in files <==> f in files'
    ensures Tags(p, files) == Tags(p, files')
  {
    hide Metadata;
  }

  lemma GoodIsAboutTheFiles(p: Platform, files: seq<File>, files': seq<File>)
    requires forall f :: f in files <==> f in files'
    ensures AllGood(p, files) ==> AllGood(p, files')
    ensures HasArabicFile(files) ==> HasArabicFile(files')
  {
    forall i | 0 <= i < |files'| && IsLocaleFile(files'[i]) && AllGood(p, files) ensures Metadata(p, files'[i]).Ok? {
      assert files'[i] in files;
    }
    if HasArabicFile(files) {
      var i :| 0 <= i < |files| && IsLocaleFile(files[i]) && files[i].name == ARABIC + SUFFIX;
      assert files[i] in files';
    }
  }
}
