/** Publishing a repository tree to an object store (scripts/pkgrepo/publish.py, plan_s3). */
module Publish {
  import opened Options

  datatype Object = Object(content: string, etag: string)

  type Bucket = map<string, Object>

  /** The local tree by path, the part of it that one channel is, and what stands before every key of the bucket. */
  datatype Site = Site(tree: map<string, string>, scope: string, prefix: string)

  const PACKAGE_SUFFIXES: seq<string> := [".rpm", ".deb", ".apk"]
  const PACMAN := ".pkg.tar."
  const RETIRED := "index.html"

  // Which file is what.

  predicate EndsWith(s: string, t: string) {
    |t| <= |s| && s[|s| - |t|..] == t
  }

  predicate OccursAt(s: string, t: string, i: int) {
    0 <= i <= |s| - |t| && s[i..i + |t|] == t
  }

  predicate Contains(s: string, t: string) {
    exists i :: 0 <= i <= |s| && OccursAt(s, t, i)
  }

  /** Where the last component of a path begins. */
  function BaseAt(path: string): (r: nat)
    ensures r <= |path|
  {
    if |path| == 0 || path[|path| - 1] == '/' then |path| else BaseAt(path[..|path| - 1])
  }

  function Base(path: string): string {
    path[BaseAt(path)..]
  }

  predicate HasPackageSuffix(s: string) {
    exists i :: 0 <= i < |PACKAGE_SUFFIXES| && EndsWith(s, PACKAGE_SUFFIXES[i])
  }

  predicate IsPackageFile(path: string) {
    HasPackageSuffix(Base(path)) || Contains(Base(path), PACMAN)
  }

  /** The exclude patterns of the metadata sync. A star matches slashes too, so a directory can match. */
  predicate Excluded(path: string) {
    HasPackageSuffix(path) || Contains(path, PACMAN)
  }

  lemma {:induction false} BaseHasNoSlash(path: string)
    ensures '/' !in Base(path) && (BaseAt(path) > 0 ==> path[BaseAt(path) - 1] == '/')
  {
    if |path| > 0 && path[|path| - 1] != '/' {
      BaseHasNoSlash(path[..|path| - 1]);
      assert Base(path) == Base(path[..|path| - 1]) + [path[|path| - 1]];
    }
  }

  /** Every package file is excluded from the sync. */
  lemma PackagesAreExcluded(path: string)
    requires IsPackageFile(path)
    ensures Excluded(path)
  {
    var at := BaseAt(path);
    if HasPackageSuffix(Base(path)) {
      var i :| 0 <= i < |PACKAGE_SUFFIXES| && EndsWith(Base(path), PACKAGE_SUFFIXES[i]);
      assert EndsWith(path, PACKAGE_SUFFIXES[i]);
    } else {
      var i :| 0 <= i <= |Base(path)| && OccursAt(Base(path), PACMAN, i);
      assert path[at..][i..i + |PACMAN|] == path[at + i..at + i + |PACMAN|];
      assert OccursAt(path, PACMAN, at + i);
    }
  }

  /** A file falls between the two rules exactly when the pattern occurs in it, but only in a directory. */
  lemma SkippedIffDirectory(path: string)
    ensures Excluded(path) && !IsPackageFile(path) <==>
      Contains(path, PACMAN) && !Contains(Base(path), PACMAN) && !HasPackageSuffix(path)
  {
    if HasPackageSuffix(path) {
      var i :| 0 <= i < |PACKAGE_SUFFIXES| && EndsWith(path, PACKAGE_SUFFIXES[i]);
      SuffixIsInBase(path, PACKAGE_SUFFIXES[i]);
    }
  }

  /** The name of a file does not depend on where the tree is looked at from. */
  lemma {:induction false} BaseBelow(above: string, path: string)
    ensures BaseAt(above + "/" + path) == |above| + 1 + BaseAt(path)
    ensures Base(above + "/" + path) == Base(path)
  {
    var whole := above + "/" + path;
    if |path| > 0 && path[|path| - 1] != '/' {
      BaseBelow(above, path[..|path| - 1]);
      assert whole[..|whole| - 1] == above + "/" + path[..|path| - 1];
    }
  }

  lemma SuffixIsInBase(path: string, suffix: string)
    requires EndsWith(path, suffix) && '/' !in suffix
    ensures EndsWith(Base(path), suffix)
  {
    BaseHasNoSlash(path);
    forall i | |path| - |suffix| <= i < |path| ensures path[i] != '/' {
      assert path[i] == suffix[i - (|path| - |suffix|)];
    }
  }

  // The files of a site, and the keys they go to.

  predicate StartsWith(s: string, t: string) {
    |t| <= |s| && s[..|t|] == t
  }

  function TreeFiles(p: Site): set<string> {
    set r | r in p.tree && StartsWith(r, p.scope + "/")
  }

  /** The path below the directory of the channel, which is what the sync matches. */
  function Below(p: Site, r: string): string
    requires r in TreeFiles(p)
  {
    r[|p.scope| + 1..]
  }

  function Packages(p: Site): set<string> {
    set r | r in TreeFiles(p) && IsPackageFile(r)
  }

  /** Metadata and pages: what the sync uploads. */
  function Metadata(p: Site): set<string> {
    set r | r in TreeFiles(p) && !Excluded(Below(p, r))
  }

  /** Neither a package file nor uploaded by the sync. */
  function Skipped(p: Site): set<string> {
    set r | r in TreeFiles(p) && !IsPackageFile(r) && Excluded(Below(p, r))
  }

  function SiteFiles(p: Site): set<string> {
    set r | r in p.tree && '/' !in r && (r == "gpg.key" || r == "setup.sh" || EndsWith(r, ".rsa.pub"))
  }

  function Key(p: Site, r: string): string {
    p.prefix + r
  }

  function Keys(p: Site, files: set<string>): (keys: set<string>)
    ensures forall r :: r in files ==> Key(p, r) in keys
    ensures forall k :: k in keys ==> StartsWith(k, p.prefix) && FileOf(p, k) in files && Key(p, FileOf(p, k)) == k
  {
    KeysAreOfFiles(p, files);
    set r | r in files :: Key(p, r)
  }

  lemma KeysAreOfFiles(p: Site, files: set<string>)
    ensures forall r :: r in files ==> StartsWith(Key(p, r), p.prefix) && FileOf(p, Key(p, r)) == r
  {
  }

  /** The file that goes to a key. */
  function FileOf(p: Site, k: string): string
    requires StartsWith(k, p.prefix)
  {
    k[|p.prefix|..]
  }

  predicate InChannel(p: Site, k: string) {
    StartsWith(k, p.prefix + (p.scope + "/"))
  }

  /** What a listing of the channel shows: not the keys that end in a slash. */
  function Listing(p: Site, b: Bucket): Bucket {
    map k | k in b && InChannel(p, k) && !EndsWith(k, "/") :: b[k]
  }

  /** Packages, metadata and skipped files are all the files of the channel, and no file is two of them. */
  lemma Partition(p: Site)
    ensures TreeFiles(p) == Packages(p) + Metadata(p) + Skipped(p)
    ensures Packages(p) !! Metadata(p) !! Skipped(p)
  {
    forall r | r in TreeFiles(p) && IsPackageFile(r) ensures Excluded(Below(p, r)) {
      assert r == p.scope + "/" + Below(p, r);
      BaseBelow(p.scope, Below(p, r));
      PackagesAreExcluded(Below(p, r));
    }
  }

  // The bucket, one upload or delete at a time.

  /** `tag` is the ETag that the store gives to an upload. */
  function Upload(p: Site, tag: string -> string, b: Bucket, r: string): Bucket
    requires r in p.tree
  {
    b[Key(p, r) := Object(p.tree[r], tag(p.tree[r]))]
  }

  /** `b` is `before` with these files uploaded. */
  ghost predicate Has(p: Site, put: set<string>, before: Bucket, b: Bucket)
    requires put <= p.tree.Keys
  {
    forall k ::
      && (k in b <==> k in before || k in Keys(p, put))
      && (k in before && k !in Keys(p, put) ==> b[k] == before[k])
      && (k in Keys(p, put) ==> b[k].content == p.tree[FileOf(p, k)])
  }

  lemma OneMoreKey(p: Site, put: set<string>, r: string)
    ensures Keys(p, put + {r}) == Keys(p, put) + {Key(p, r)}
    ensures StartsWith(Key(p, r), p.prefix) && FileOf(p, Key(p, r)) == r
  {
  }

  lemma UploadHas(p: Site, tag: string -> string, put: set<string>, before: Bucket, b: Bucket, r: string)
    requires put <= p.tree.Keys && r in p.tree && Has(p, put, before, b)
    ensures Has(p, put + {r}, before, Upload(p, tag, b, r))
  {
    OneMoreKey(p, put, r);
  }

  // The digests that decide what is uploaded.

  function Lower(c: char): char {
    if 'A' <= c <= 'Z' then c - 'A' + 'a' else c
  }

  predicate IsMd5(etag: string) {
    |etag| == 32 && forall c :: c in etag ==> c != '-' && Lower(c) in "0123456789abcdef"
  }

  function LowerAll(s: string): string {
    seq(|s|, i requires 0 <= i < |s| => Lower(s[i]))
  }

  /** Whether an object of that size and ETag can be the file. */
  predicate SameObject(md5: string -> string, content: string, size: nat, etag: string) {
    |content| == size && (IsMd5(etag) ==> md5(content) == LowerAll(etag))
  }

  lemma Md5Is(etag: string)
    ensures IsMd5(etag) <==> |etag| == 32 && forall i :: 0 <= i < 32 ==> etag[i] in "0123456789abcdefABCDEF"
  {
    if |etag| == 32 && forall i :: 0 <= i < 32 ==> etag[i] in "0123456789abcdefABCDEF" {
      forall c | c in etag ensures c != '-' && Lower(c) in "0123456789abcdef" {
        HexDigits(c);
      }
    }
    if IsMd5(etag) {
      forall i | 0 <= i < 32 ensures etag[i] in "0123456789abcdefABCDEF" {
        assert etag[i] in etag;
        HexDigits(etag[i]);
      }
    }
  }

  lemma LowerIs(md: string, etag: string)
    requires |etag| == 32 && forall i :: 0 <= i < 32 ==> etag[i] in "0123456789abcdefABCDEF"
    ensures md == LowerAll(etag) <==>
      |md| == 32 && forall i :: 0 <= i < 32 ==>
        md[i] == if 'A' <= etag[i] <= 'F' then etag[i] - 'A' + 'a' else etag[i]
  {
    forall i | 0 <= i < 32 ensures Lower(etag[i]) == if 'A' <= etag[i] <= 'F' then etag[i] - 'A' + 'a' else etag[i] {
      HexDigits(etag[i]);
    }
  }

  /** The code's test of an object against a file, digit by digit. */
  lemma SameObjectIs(md5: string -> string, content: string, size: nat, etag: string)
    ensures SameObject(md5, content, size, etag) <==>
      && |content| == size
      && (|etag| == 32 && (forall i :: 0 <= i < 32 ==> etag[i] in "0123456789abcdefABCDEF") ==>
           && |md5(content)| == 32
           && forall i :: 0 <= i < 32 ==>
                md5(content)[i] == if 'A' <= etag[i] <= 'F' then etag[i] - 'A' + 'a' else etag[i])
  {
    hide IsMd5, LowerAll;
    Md5Is(etag);
    if |etag| == 32 && forall i :: 0 <= i < 32 ==> etag[i] in "0123456789abcdefABCDEF" {
      LowerIs(md5(content), etag);
    }
  }

  lemma HexDigits(c: char)
    ensures c in "0123456789abcdefABCDEF" <==> '0' <= c <= '9' || 'a' <= c <= 'f' || 'A' <= c <= 'F'
    ensures c in "0123456789abcdef" <==> '0' <= c <= '9' || 'a' <= c <= 'f'
    ensures Lower(c) in "0123456789abcdef" <==> '0' <= Lower(c) <= '9' || 'a' <= Lower(c) <= 'f'
  {
    ListedDigits(c);
    ListedDigits(Lower(c));
  }

  lemma ListedDigits(c: char)
    ensures c in "0123456789abcdefABCDEF" <==> '0' <= c <= '9' || 'a' <= c <= 'f' || 'A' <= c <= 'F'
    ensures c in "0123456789abcdef" <==> '0' <= c <= '9' || 'a' <= c <= 'f'
  {
    var lower, upper := "0123456789abcdef", "ABCDEF";
    assert "0123456789abcdefABCDEF" == lower + upper;
    if '0' <= c <= '9' {
      assert lower[c as int - '0' as int] == c;
    } else if 'a' <= c <= 'f' {
      assert lower[c as int - 'a' as int + 10] == c;
    } else if 'A' <= c <= 'F' {
      assert upper[c as int - 'A' as int] == c;
    }
  }

  /** A signature stands for its package. */
  function Main(r: string): string {
    if EndsWith(r, ".sig") then r[..|r| - 4] else r
  }

  predicate IsChanged(p: Site, sha: string -> string, previous: Option<map<string, string>>, r: string)
    requires previous.Some? ==> Main(r) in p.tree
  {
    previous.None? || Base(Main(r)) !in previous.value || previous.value[Base(Main(r))] != sha(p.tree[Main(r)])
  }

  /** None stands for a signature without its package. */
  method ChangedPackages(p: Site, sha: string -> string, previous: Option<map<string, string>>)
    returns (changed: Option<set<string>>)
    ensures changed.None? <==> previous.Some? && exists r :: r in Packages(p) && Main(r) !in p.tree
    ensures changed.Some? ==> forall r :: r in changed.value <==> r in Packages(p) && IsChanged(p, sha, previous, r)
  {
    var all := {};
    var left := TreeFiles(p);
    while left != {}
      invariant left <= TreeFiles(p) && all <= TreeFiles(p) - left
      invariant forall r :: r in Packages(p) && r !in left ==> previous.Some? ==> Main(r) in p.tree
      invariant forall r :: r in TreeFiles(p) && r !in left ==>
        (r in all <==> r in Packages(p) && IsChanged(p, sha, previous, r))
      decreases |left|
    {
      var r :| r in left;
      left := left - {r};
      if !IsPackageFile(r) {
        continue;
      }
      if previous.Some? && Main(r) !in p.tree {
        return None;
      }
      if IsChanged(p, sha, previous, r) {
        all := all + {r};
      }
    }
    changed := Some(all);
  }

  // The plan.

  /** The listing does not show a package file that was not uploaded already, or shows another object for it. */
  predicate Lacks(p: Site, md5: string -> string, changed: set<string>, listing: Bucket, r: string)
    requires r in p.tree
  {
    IsPackageFile(r) && r !in changed && (
      Key(p, r) !in listing
      || !SameObject(md5, p.tree[r], |listing[Key(p, r)].content|, listing[Key(p, r)].etag))
  }

  function Missing(p: Site, md5: string -> string, changed: set<string>, b: Bucket): set<string> {
    set r | r in TreeFiles(p) && Lacks(p, md5, changed, Listing(p, b), r)
  }

  /** A package that was not uploaded already is missing if and only if its key is not listed, the size differs, or the
      ETag is an md5 in hexadecimal digits and not the one of the file. */
  lemma MissingIff(p: Site, md5: string -> string, changed: set<string>, b: Bucket, r: string)
    requires r in Packages(p) && r !in changed
    ensures var key, content := p.prefix + r, p.tree[r];
      r in Missing(p, md5, changed, b) <==>
        || key !in Listing(p, b)
        || |b[key].content| != |content|
        || (|b[key].etag| == 32
            && (forall i :: 0 <= i < 32 ==> b[key].etag[i] in "0123456789abcdefABCDEF")
            && !(|md5(content)| == 32
                 && forall i :: 0 <= i < 32 ==>
                      var c := b[key].etag[i];
                      md5(content)[i] == if 'A' <= c <= 'F' then c - 'A' + 'a' else c))
  {
    hide SameObject;
    if p.prefix + r in b {
      SameObjectIs(md5, p.tree[r], |b[p.prefix + r].content|, b[p.prefix + r].etag);
    }
  }

  function Stale(p: Site, b: Bucket): set<string> {
    Listing(p, b).Keys - Keys(p, TreeFiles(p))
  }

  /** All that the plan uploads. */
  function Put(p: Site, md5: string -> string, changed: set<string>, before: Bucket): (put: set<string>)
    requires changed <= Packages(p)
    ensures put <= p.tree.Keys
  {
    changed + Missing(p, md5, changed, before) + Metadata(p) + SiteFiles(p)
  }

  /** The keys that the plan deletes if they are there. */
  predicate Doomed(p: Site, k: string) {
    (InChannel(p, k) && !EndsWith(k, "/") && k !in Keys(p, TreeFiles(p))) || k == Key(p, RETIRED)
  }

  /** `after` is what a complete run of the plan makes of `before`. */
  ghost predicate Ends(p: Site, put: set<string>, before: Bucket, after: Bucket)
    requires put <= p.tree.Keys
  {
    forall k ::
      && (k in after <==> (k in before || k in Keys(p, put)) && !Doomed(p, k))
      && (k in after && k !in Keys(p, put) ==> after[k] == before[k])
      && (k in after && k in Keys(p, put) ==> after[k].content == p.tree[FileOf(p, k)])
  }

  // What holds in between: `names` is what a metadata file of the given content names, as paths of the tree.

  ghost predicate Present(p: Site, b: Bucket, files: set<string>) {
    forall r :: r in files ==> Key(p, r) in b
  }

  /** Every package that one of the watched files in the bucket names is in the bucket. */
  ghost predicate Consistent(p: Site, names: (string, string) -> set<string>, watched: set<string>, b: Bucket) {
    forall m :: m in watched && Key(p, m) in b ==> Present(p, b, names(m, b[Key(p, m)].content))
  }

  /** The new metadata names packages of the new tree. */
  ghost predicate Whole(p: Site, names: (string, string) -> set<string>) {
    forall m :: m in Metadata(p) ==> names(m, p.tree[m]) <= Packages(p)
  }

  /** A skipped file that is in the bucket stays as it is, so it must not name what is deleted. */
  ghost predicate Safe(p: Site, names: (string, string) -> set<string>, before: Bucket, m: string) {
    Key(p, m) in before ==> forall r :: r in names(m, before[Key(p, m)].content) ==> !Doomed(p, Key(p, r))
  }

  /** The metadata files of the tree that never name a missing package: all but the skipped ones that are not safe. */
  ghost function Watched(p: Site, names: (string, string) -> set<string>, before: Bucket): set<string> {
    Metadata(p) + set m | m in Skipped(p) && Safe(p, names, before, m)
  }

  ghost predicate Untouched(p: Site, before: Bucket, b: Bucket) {
    forall m :: m in Skipped(p) ==>
      (Key(p, m) in b <==> Key(p, m) in before) && (Key(p, m) in b ==> b[Key(p, m)] == before[Key(p, m)])
  }

  ghost predicate Steady(p: Site, names: (string, string) -> set<string>, before: Bucket, b: Bucket) {
    Consistent(p, names, Watched(p, names, before), b) && Untouched(p, before, b)
  }

  ghost predicate Current(p: Site, b: Bucket) {
    && Present(p, b, Packages(p))
    && forall m :: m in Metadata(p) ==> Key(p, m) in b && b[Key(p, m)].content == p.tree[m]
  }

  lemma KeysDiffer(p: Site, r: string, q: string)
    requires r != q
    ensures Key(p, r) != Key(p, q)
  {
    assert FileOf(p, Key(p, r)) == r && FileOf(p, Key(p, q)) == q;
  }

  lemma ChannelKeyIsBelow(p: Site, r: string)
    ensures InChannel(p, Key(p, r)) <==> StartsWith(r, p.scope + "/")
  {
    var below := p.scope + "/";
    assert |Key(p, r)| >= |p.prefix + below| ==> Key(p, r)[..|p.prefix + below|] == p.prefix + r[..|below|];
    assert StartsWith(r, below) ==> p.prefix + r[..|below|] == p.prefix + below;
    assert InChannel(p, Key(p, r)) ==> (p.prefix + r[..|below|])[|p.prefix|..] == (p.prefix + below)[|p.prefix|..];
  }

  lemma BelowHasSlash(p: Site, r: string)
    requires StartsWith(r, p.scope + "/")
    ensures '/' in r
  {
    assert r[..|p.scope| + 1][|p.scope|] == '/';
    assert r[|p.scope|] == '/';
  }

  lemma SiteFilesAreOutside(p: Site, r: string)
    requires '/' !in r
    ensures r !in TreeFiles(p) && !InChannel(p, Key(p, r))
  {
    ChannelKeyIsBelow(p, r);
    if StartsWith(r, p.scope + "/") {
      BelowHasSlash(p, r);
    }
  }

  lemma UploadKeepsSteady(p: Site, tag: string -> string, names: (string, string) -> set<string>, before: Bucket,
                          b: Bucket, r: string)
    requires Steady(p, names, before, b) && Whole(p, names)
    requires r in Packages(p) || r in SiteFiles(p) || (r in Metadata(p) && Present(p, b, Packages(p)))
    ensures Steady(p, names, before, Upload(p, tag, b, r))
  {
    var b' := Upload(p, tag, b, r);
    Partition(p);
    if r in SiteFiles(p) {
      SiteFilesAreOutside(p, r);
    }
    forall m | m in TreeFiles(p) && m != r ensures Key(p, m) != Key(p, r) {
      KeysDiffer(p, m, r);
    }
    forall m | m in Watched(p, names, before) && Key(p, m) in b'
      ensures Present(p, b', names(m, b'[Key(p, m)].content))
    {
      if m != r {
        assert Present(p, b, names(m, b[Key(p, m)].content));
      }
    }
  }

  lemma DeleteKeepsSteady(p: Site, names: (string, string) -> set<string>, before: Bucket, b: Bucket, k: string)
    requires Steady(p, names, before, b) && Whole(p, names) && Current(p, b) && Doomed(p, k)
    ensures Steady(p, names, before, b - {k}) && Current(p, b - {k})
  {
    var b' := b - {k};
    Partition(p);
    SiteFilesAreOutside(p, RETIRED);
    forall r | r in TreeFiles(p) ensures Key(p, r) != k {
      assert Key(p, r) in Keys(p, TreeFiles(p));
      if r != RETIRED {
        KeysDiffer(p, r, RETIRED);
      }
    }
    forall m | m in Watched(p, names, before) && Key(p, m) in b'
      ensures Present(p, b', names(m, b'[Key(p, m)].content))
    {
      assert Present(p, b, names(m, b[Key(p, m)].content));
    }
  }

  // The end of a run.

  /** No path of a file ends in a slash. */
  predicate AreFiles(p: Site) {
    forall r :: r in p.tree ==> !EndsWith(r, "/")
  }

  lemma TreeKeysAreListed(p: Site, r: string)
    requires AreFiles(p) && r in TreeFiles(p)
    ensures InChannel(p, Key(p, r)) && !EndsWith(Key(p, r), "/")
  {
    ChannelKeyIsBelow(p, r);
    assert |r| > 0 && Key(p, r)[|Key(p, r)| - 1] == r[|r| - 1];
    assert r[|r| - 1..] == [r[|r| - 1]] && Key(p, r)[|Key(p, r)| - 1..] == [r[|r| - 1]];
  }

  lemma PutKey(p: Site, put: set<string>, r: string)
    ensures Key(p, r) in Keys(p, put) <==> r in put
    ensures StartsWith(Key(p, r), p.prefix) && FileOf(p, Key(p, r)) == r
  {
  }

  lemma TreeKeyIsNotDoomed(p: Site, r: string)
    requires r in TreeFiles(p)
    ensures !Doomed(p, Key(p, r))
  {
    SiteFilesAreOutside(p, RETIRED);
    KeysDiffer(p, r, RETIRED);
  }

  /** Nothing outside the channel changes but the site files and the retired file, and no pseudo directory does. */
  lemma OutsideIsUnchanged(p: Site, md5: string -> string, changed: set<string>, before: Bucket, after: Bucket,
                           k: string)
    requires changed <= Packages(p) && AreFiles(p) && Ends(p, Put(p, md5, changed, before), before, after)
    requires !InChannel(p, k) || EndsWith(k, "/")
    requires k !in Keys(p, SiteFiles(p)) && k != Key(p, RETIRED)
    ensures (k in after <==> k in before) && (k in before ==> after[k] == before[k])
  {
    if k in Keys(p, Put(p, md5, changed, before)) {
      var r := FileOf(p, k);
      if r in TreeFiles(p) {
        TreeKeysAreListed(p, r);
      }
    }
  }

  /** A file of the tree is in the channel at the end unless it is skipped and was not there. */
  lemma TreeFileAt(p: Site, md5: string -> string, changed: set<string>, before: Bucket, after: Bucket, r: string)
    requires changed <= Packages(p) && AreFiles(p) && Ends(p, Put(p, md5, changed, before), before, after)
    ensures r in TreeFiles(p) ==> (Key(p, r) in Listing(p, after) <==> r !in Skipped(p) || Key(p, r) in before)
  {
    if r in TreeFiles(p) {
      var put := Put(p, md5, changed, before);
      Partition(p);
      TreeKeysAreListed(p, r);
      TreeKeyIsNotDoomed(p, r);
      PutKey(p, put, r);
      if '/' !in r {
        SiteFilesAreOutside(p, r);
      }
    }
  }

  /** The channel ends up with exactly the files of the tree if and only if the skipped ones were there already. */
  lemma ChannelIsTreeIff(p: Site, md5: string -> string, changed: set<string>, before: Bucket, after: Bucket)
    requires changed <= Packages(p) && AreFiles(p) && Ends(p, Put(p, md5, changed, before), before, after)
    ensures Listing(p, after).Keys == Keys(p, TreeFiles(p)) <==> Present(p, before, Skipped(p))
  {
    forall r | r in TreeFiles(p)
      ensures Key(p, r) in Listing(p, after) <==> r !in Skipped(p) || Key(p, r) in before
    {
      TreeFileAt(p, md5, changed, before, after, r);
    }
    if Present(p, before, Skipped(p)) {
      forall k ensures k in Listing(p, after) <==> k in Keys(p, TreeFiles(p)) {
        if k in Keys(p, TreeFiles(p)) {
          assert k == Key(p, FileOf(p, k));
        }
      }
    }
  }

  /** What the bucket holds for a package is its file, or an object that the listing could not tell from it. */
  lemma PackageContent(p: Site, md5: string -> string, changed: set<string>, before: Bucket, after: Bucket, r: string)
    requires changed <= Packages(p) && AreFiles(p) && Ends(p, Put(p, md5, changed, before), before, after)
    ensures r in Packages(p) ==> Key(p, r) in after
    ensures r in Packages(p) ==>
      var now := after[Key(p, r)];
      && (now.content != p.tree[r] ==> r !in changed && |now.content| == |p.tree[r]|)
      && (now.content != p.tree[r] && |now.etag| == 32
          && (forall i :: 0 <= i < 32 ==> now.etag[i] in "0123456789abcdefABCDEF") ==>
            && |md5(p.tree[r])| == 32
            && forall i :: 0 <= i < 32 ==>
                 var c := now.etag[i];
                 md5(p.tree[r])[i] == if 'A' <= c <= 'F' then c - 'A' + 'a' else c)
  {
    if r in Packages(p) {
      var now := if Key(p, r) in after then after[Key(p, r)] else Object("", "");
      SameObjectIs(md5, p.tree[r], |now.content|, now.etag);
      var put := Put(p, md5, changed, before);
      TreeFileAt(p, md5, changed, before, after, r);
      Partition(p);
      PutKey(p, put, r);
    }
  }

  /** A skipped file that is not safe names a package that is gone at the end. */
  lemma UnsafeIsBroken(p: Site, md5: string -> string, names: (string, string) -> set<string>, changed: set<string>,
                       before: Bucket, after: Bucket, m: string)
    requires changed <= Packages(p) && AreFiles(p) && Ends(p, Put(p, md5, changed, before), before, after)
    ensures m in Skipped(p) && !Safe(p, names, before, m) ==> !Consistent(p, names, {m}, after)
  {
    if m in Skipped(p) && !Safe(p, names, before, m) {
      var put := Put(p, md5, changed, before);
      var r :| r in names(m, before[Key(p, m)].content) && Doomed(p, Key(p, r));
      TreeFileAt(p, md5, changed, before, after, m);
      Partition(p);
      PutKey(p, put, m);
      if '/' !in m {
        SiteFilesAreOutside(p, m);
      }
      assert after[Key(p, m)] == before[Key(p, m)];
      assert Key(p, r) !in after;
    }
  }

  // Whole runs.

  datatype Op = Send(file: string) | Drop(key: string)

  function Apply(p: Site, tag: string -> string, b: Bucket, op: Op): Bucket {
    match op
    case Send(r) => if r in p.tree then Upload(p, tag, b, r) else b
    case Drop(k) => b - {k}
  }

  /** The bucket after these operations. */
  function Replay(p: Site, tag: string -> string, before: Bucket, ops: seq<Op>): Bucket {
    if |ops| == 0 then before
    else Apply(p, tag, Replay(p, tag, before, ops[..|ops| - 1]), ops[|ops| - 1])
  }

  function Sent(ops: seq<Op>): set<string> {
    set op | op in ops && op.Send? :: op.file
  }

  /** From `from` on, the operations send files out of `files`. */
  ghost predicate OnlySends(ops: seq<Op>, from: nat, files: set<string>) {
    forall i :: from <= i < |ops| ==> ops[i].Send? && ops[i].file in files
  }

  lemma OneMoreSend(ops: seq<Op>, from: nat, files: set<string>, r: string)
    requires OnlySends(ops, from, files) && r in files
    ensures OnlySends(ops + [Send(r)], from, files)
  {
  }

  /** Package files first, then metadata, then the site files, and deletes last. The order within a phase is any. */
  ghost predicate Phased(p: Site, ops: seq<Op>, m: nat, n: nat, d: nat) {
    && m <= n <= d <= |ops|
    && (forall i :: 0 <= i < m ==> ops[i].Send? && ops[i].file in Packages(p))
    && (forall i :: m <= i < n ==> ops[i].Send? && ops[i].file in Metadata(p))
    && (forall i :: n <= i < d ==> ops[i].Send? && ops[i].file in SiteFiles(p))
    && (forall i :: d <= i < |ops| ==> ops[i].Drop? && Doomed(p, ops[i].key))
  }

  /** No phase leaves out what the next one relies on. */
  ghost predicate Thorough(p: Site, before: Bucket, ops: seq<Op>, m: nat, n: nat)
    requires m <= n <= |ops|
  {
    && (forall r :: r in Packages(p) ==> Key(p, r) in before || r in Sent(ops[..m]))
    && Metadata(p) <= Sent(ops[..n])
  }

  lemma SentMore(ops: seq<Op>, j: nat)
    requires j < |ops|
    ensures Sent(ops[..j + 1]) == Sent(ops[..j]) + if ops[j].Send? then {ops[j].file} else {}
    ensures ops[..j + 1] == ops[..j] + [ops[j]]
  {
    assert ops[..j + 1] == ops[..j] + [ops[j]];
  }

  /** While nothing was deleted, the bucket has what was there and what was sent. */
  lemma {:induction false} ReplayHas(p: Site, tag: string -> string, before: Bucket, ops: seq<Op>, j: nat)
    requires j <= |ops| && forall i :: 0 <= i < j ==> ops[i].Send? && ops[i].file in p.tree
    ensures Sent(ops[..j]) <= p.tree.Keys && Has(p, Sent(ops[..j]), before, Replay(p, tag, before, ops[..j]))
  {
    if j > 0 {
      ReplayHas(p, tag, before, ops, j - 1);
      SentMore(ops, j - 1);
      assert ops[..j][..j - 1] == ops[..j - 1];
      UploadHas(p, tag, Sent(ops[..j - 1]), before, Replay(p, tag, before, ops[..j - 1]), ops[j - 1].file);
    }
  }

  lemma {:induction false} SentGrows(ops: seq<Op>, i: nat, j: nat)
    requires i <= j <= |ops|
    ensures Sent(ops[..i]) <= Sent(ops[..j])
  {
    if i < j {
      SentGrows(ops, i, j - 1);
      SentMore(ops, j - 1);
    }
  }

  lemma PackagesArePresent(p: Site, tag: string -> string, before: Bucket, ops: seq<Op>, m: nat, n: nat, d: nat, j: nat)
    requires Phased(p, ops, m, n, d) && Thorough(p, before, ops, m, n) && m <= j <= d
    ensures Present(p, Replay(p, tag, before, ops[..j]), Packages(p))
  {
    ReplayHas(p, tag, before, ops, j);
    SentGrows(ops, m, j);
    forall r | r in Packages(p) ensures Key(p, r) in Replay(p, tag, before, ops[..j]) {
      PutKey(p, Sent(ops[..j]), r);
    }
  }

  lemma MetadataIsCurrent(p: Site, tag: string -> string, before: Bucket, ops: seq<Op>, m: nat, n: nat, d: nat)
    requires Phased(p, ops, m, n, d) && Thorough(p, before, ops, m, n)
    ensures Current(p, Replay(p, tag, before, ops[..d]))
  {
    PackagesArePresent(p, tag, before, ops, m, n, d, d);
    ReplayHas(p, tag, before, ops, d);
    SentGrows(ops, n, d);
    forall r | r in Metadata(p)
      ensures var b := Replay(p, tag, before, ops[..d]); Key(p, r) in b && b[Key(p, r)].content == p.tree[r]
    {
      PutKey(p, Sent(ops[..d]), r);
    }
  }

  lemma ReplayStep(p: Site, tag: string -> string, before: Bucket, ops: seq<Op>, j: nat)
    requires 0 < j <= |ops|
    ensures Replay(p, tag, before, ops[..j]) == Apply(p, tag, Replay(p, tag, before, ops[..j - 1]), ops[j - 1])
  {
    assert ops[..j][..j - 1] == ops[..j - 1];
  }

  /** What the order of the plan makes sure of before an operation. */
  ghost predicate Legal(p: Site, b: Bucket, op: Op) {
    match op
    case Send(r) => r in Packages(p) || r in SiteFiles(p) || (r in Metadata(p) && Present(p, b, Packages(p)))
    case Drop(k) => Doomed(p, k) && Current(p, b)
  }

  lemma StepIsSteady(p: Site, tag: string -> string, names: (string, string) -> set<string>, before: Bucket, b: Bucket,
                     op: Op)
    requires Whole(p, names) && Steady(p, names, before, b) && Legal(p, b, op)
    ensures Steady(p, names, before, Apply(p, tag, b, op))
    ensures op.Drop? ==> Current(p, Apply(p, tag, b, op))
  {
    match op
    case Send(r) => UploadKeepsSteady(p, tag, names, before, b, r);
    case Drop(k) => DeleteKeepsSteady(p, names, before, b, k);
  }

  lemma EachIsLegal(p: Site, tag: string -> string, before: Bucket, ops: seq<Op>, m: nat, n: nat, d: nat, j: nat,
                    b: Bucket)
    requires Phased(p, ops, m, n, d) && Thorough(p, before, ops, m, n) && 0 < j <= |ops|
    requires b == Replay(p, tag, before, ops[..j - 1]) && (j > d ==> Current(p, b))
    ensures Legal(p, b, ops[j - 1])
  {
    if m < j <= n {
      PackagesArePresent(p, tag, before, ops, m, n, d, j - 1);
    }
  }

  /** After every single upload and delete, each watched file of the tree names only packages that are there. */
  lemma {:induction false} EveryStateIsSteady(p: Site, tag: string -> string, names: (string, string) -> set<string>,
                                              before: Bucket, ops: seq<Op>, m: nat, n: nat, d: nat, j: nat)
    requires Phased(p, ops, m, n, d) && Thorough(p, before, ops, m, n) && j <= |ops|
    requires Whole(p, names) && Consistent(p, names, Watched(p, names, before), before)
    ensures Steady(p, names, before, Replay(p, tag, before, ops[..j]))
    ensures j >= d ==> Current(p, Replay(p, tag, before, ops[..j]))
    decreases j
  {
    if j > 0 {
      var b := Replay(p, tag, before, ops[..j - 1]);
      EveryStateIsSteady(p, tag, names, before, ops, m, n, d, j - 1);
      EachIsLegal(p, tag, before, ops, m, n, d, j, b);
      StepIsSteady(p, tag, names, before, b, ops[j - 1]);
      ReplayStep(p, tag, before, ops, j);
    }
    if j == d {
      MetadataIsCurrent(p, tag, before, ops, m, n, d);
    }
  }

  /** The run sends all that it should, and drops all that is doomed. */
  ghost predicate Complete(p: Site, tag: string -> string, put: set<string>, before: Bucket, ops: seq<Op>, d: nat)
    requires d <= |ops|
  {
    && Sent(ops[..d]) == put
    && forall k :: Doomed(p, k) && k in Replay(p, tag, before, ops[..d]) ==> Drop(k) in ops[d..]
  }

  lemma {:induction false} DropsReplay(p: Site, tag: string -> string, before: Bucket, ops: seq<Op>, d: nat, j: nat,
                                       k: string)
    requires d <= j <= |ops| && forall i :: d <= i < |ops| ==> ops[i].Drop?
    ensures var b, c := Replay(p, tag, before, ops[..d]), Replay(p, tag, before, ops[..j]);
      (k in c <==> k in b && Drop(k) !in ops[d..j]) && (k in c ==> c[k] == b[k])
    decreases j
  {
    if j > d {
      DropsReplay(p, tag, before, ops, d, j - 1, k);
      assert ops[..j][..j - 1] == ops[..j - 1];
      assert ops[d..j] == ops[d..j - 1] + [ops[j - 1]];
    }
  }

  lemma CompleteRunEnds(p: Site, tag: string -> string, put: set<string>, before: Bucket, ops: seq<Op>, m: nat, n: nat,
                        d: nat)
    requires Phased(p, ops, m, n, d) && put <= p.tree.Keys
    requires Complete(p, tag, put, before, ops, d)
    ensures Ends(p, put, before, Replay(p, tag, before, ops))
  {
    ReplayHas(p, tag, before, ops, d);
    forall k ensures var b, c := Replay(p, tag, before, ops[..d]), Replay(p, tag, before, ops);
      (k in c <==> k in b && !Doomed(p, k)) && (k in c ==> c[k] == b[k])
    {
      DropsReplay(p, tag, before, ops, d, |ops|, k);
      assert ops[..|ops|] == ops && ops[d..|ops|] == ops[d..];
    }
  }

  /** Every file of the channel that is not a package file. */
  function Kept(p: Site): set<string> {
    TreeFiles(p) - Packages(p)
  }

  /** The promise of the module about all files of the new tree, in the state after `j` operations. */
  ghost predicate PromiseAt(p: Site, tag: string -> string, names: (string, string) -> set<string>, before: Bucket,
                            ops: seq<Op>, j: nat)
    requires j <= |ops|
  {
    Consistent(p, names, Kept(p), Replay(p, tag, before, ops[..j]))
  }

  lemma SafeIsKept(p: Site, tag: string -> string, names: (string, string) -> set<string>, before: Bucket, ops: seq<Op>,
                   m: nat, n: nat, d: nat, j: nat)
    requires Phased(p, ops, m, n, d) && Thorough(p, before, ops, m, n) && j <= |ops|
    requires Whole(p, names) && Consistent(p, names, Kept(p), before)
    requires forall s :: s in Skipped(p) ==> Safe(p, names, before, s)
    ensures PromiseAt(p, tag, names, before, ops, j)
  {
    Partition(p);
    assert Watched(p, names, before) == Kept(p);
    EveryStateIsSteady(p, tag, names, before, ops, m, n, d, j);
  }

  lemma UnsafeBreaksPromise(p: Site, tag: string -> string, md5: string -> string,
                            names: (string, string) -> set<string>,
                            changed: set<string>, before: Bucket, ops: seq<Op>, m: nat, n: nat, d: nat, s: string)
    requires changed <= Packages(p) && AreFiles(p) && Phased(p, ops, m, n, d)
    requires Complete(p, tag, Put(p, md5, changed, before), before, ops, d)
    ensures s in Skipped(p) && !Safe(p, names, before, s) ==> !PromiseAt(p, tag, names, before, ops, |ops|)
  {
    var after := Replay(p, tag, before, ops);
    CompleteRunEnds(p, tag, Put(p, md5, changed, before), before, ops, m, n, d);
    UnsafeIsBroken(p, md5, names, changed, before, after, s);
    assert ops[..|ops|] == ops && (s in Skipped(p) ==> s in Kept(p));
  }

  /** It holds in every state of a complete run if and only if no skipped file in the bucket names what is deleted. */
  lemma PromiseHoldsIff(p: Site, tag: string -> string, md5: string -> string, names: (string, string) -> set<string>,
                        changed: set<string>, before: Bucket, ops: seq<Op>, m: nat, n: nat, d: nat)
    requires changed <= Packages(p) && AreFiles(p) && Whole(p, names) && Consistent(p, names, Kept(p), before)
    requires Phased(p, ops, m, n, d) && Thorough(p, before, ops, m, n)
    requires Complete(p, tag, Put(p, md5, changed, before), before, ops, d)
    ensures (forall j :: 0 <= j <= |ops| ==> PromiseAt(p, tag, names, before, ops, j)) <==>
      forall s :: s in Skipped(p) ==> Safe(p, names, before, s)
  {
    if forall s :: s in Skipped(p) ==> Safe(p, names, before, s) {
      forall j | 0 <= j <= |ops| ensures PromiseAt(p, tag, names, before, ops, j) {
        SafeIsKept(p, tag, names, before, ops, m, n, d, j);
      }
    } else {
      var s :| s in Skipped(p) && !Safe(p, names, before, s);
      UnsafeBreaksPromise(p, tag, md5, names, changed, before, ops, m, n, d, s);
    }
  }

  // The execution of the plan.

  lemma ReplayOneMore(p: Site, tag: string -> string, before: Bucket, ops: seq<Op>, op: Op)
    ensures Replay(p, tag, before, ops + [op]) == Apply(p, tag, Replay(p, tag, before, ops), op)
  {
    assert (ops + [op])[..|ops|] == ops;
  }

  lemma SentSince(from: seq<Op>, ops: seq<Op>, files: set<string>)
    requires from <= ops && OnlySends(ops, |from|, files) && forall r :: r in files ==> Send(r) in ops
    ensures Sent(ops) == Sent(from) + files
  {
    assert ops == from + ops[|from|..];
    forall r | r in Sent(ops) ensures r in Sent(from) + files {
      assert Send(r) in from || Send(r) in ops[|from|..];
    }
    forall r | r in Sent(from) + files ensures Send(r) in ops {
    }
  }

  /** The objects of the store, and what was done to it. */
  class Store {
    var objects: Bucket
    ghost var log: seq<Op>

    constructor (objects: Bucket)
      ensures this.objects == objects && log == []
    {
      this.objects := objects;
      log := [];
    }

    ghost predicate Logged(p: Site, tag: string -> string, before: Bucket)
      reads this
    {
      objects == Replay(p, tag, before, log)
    }

    method Copy(p: Site, tag: string -> string, r: string, ghost before: Bucket)
      requires r in p.tree && Logged(p, tag, before)
      modifies this
      ensures Logged(p, tag, before) && log == old(log) + [Send(r)]
    {
      ReplayOneMore(p, tag, before, log, Send(r));
      objects := objects[Key(p, r) := Object(p.tree[r], tag(p.tree[r]))];
      log := log + [Send(r)];
    }

    method Remove(p: Site, tag: string -> string, k: string, ghost before: Bucket)
      requires Logged(p, tag, before)
      modifies this
      ensures Logged(p, tag, before) && log == old(log) + [Drop(k)] && objects == old(objects) - {k}
    {
      ReplayOneMore(p, tag, before, log, Drop(k));
      objects := objects - {k};
      log := log + [Drop(k)];
    }

    /** Since the log was `from`, the files `sent` were sent, all of them out of `allowed`. */
    ghost predicate Progress(p: Site, tag: string -> string, before: Bucket, from: seq<Op>, allowed: set<string>,
                             sent: set<string>)
      reads this
    {
      Logged(p, tag, before) && from <= log && OnlySends(log, |from|, allowed)
      && forall r :: r in sent ==> Send(r) in log
    }

    method CopyNext(p: Site, tag: string -> string, r: string, ghost before: Bucket, ghost from: seq<Op>,
                    ghost allowed: set<string>, ghost sent: set<string>)
      requires r in p.tree && r in allowed && Progress(p, tag, before, from, allowed, sent)
      modifies this
      ensures Progress(p, tag, before, from, allowed, sent + {r})
    {
      OneMoreSend(log, |from|, allowed, r);
      Copy(p, tag, r, before);
    }

    method CopyAll(p: Site, tag: string -> string, files: set<string>, ghost before: Bucket)
      requires files <= p.tree.Keys && Logged(p, tag, before)
      modifies this
      ensures Progress(p, tag, before, old(log), files, files)
    {
      var left := files;
      ghost var sent := {};
      while left != {}
        invariant left <= files && sent == files - left
        invariant Progress(p, tag, before, old(log), files, sent)
        decreases |left|
      {
        var r :| r in left;
        CopyNext(p, tag, r, before, old(log), files, sent);
        left, sent := left - {r}, sent + {r};
      }
      assert sent == files;
    }

    method UploadMissingPackages(p: Site, tag: string -> string, md5: string -> string, changed: set<string>,
                                 ghost before: Bucket)
      requires Logged(p, tag, before)
      modifies this
      ensures var missing := Missing(p, md5, changed, old(objects));
        Progress(p, tag, before, old(log), missing, missing)
    {
      var remote := Listing(p, objects);
      CopyLacking(p, tag, md5, changed, remote, Missing(p, md5, changed, objects), before);
    }

    method CopyLacking(p: Site, tag: string -> string, md5: string -> string, changed: set<string>, remote: Bucket,
                       ghost missing: set<string>, ghost before: Bucket)
      requires Logged(p, tag, before)
      requires missing <= TreeFiles(p)
      requires forall r :: r in TreeFiles(p) ==> (r in missing <==> Lacks(p, md5, changed, remote, r))
      modifies this
      ensures Progress(p, tag, before, old(log), missing, missing)
    {
      ghost var sent := {};
      var left := TreeFiles(p);
      while left != {}
        invariant left <= TreeFiles(p) && sent <= missing && forall r :: r in missing ==> r in sent || r in left
        invariant Progress(p, tag, before, old(log), missing, sent)
        decreases |left|
      {
        var r :| r in left;
        left := left - {r};
        if !Lacks(p, md5, changed, remote, r) {
          continue;
        }
        CopyNext(p, tag, r, before, old(log), missing, sent);
        sent := sent + {r};
      }
      assert sent == missing;
    }

    method RemoveAll(p: Site, tag: string -> string, keys: set<string>, ghost before: Bucket)
      requires Logged(p, tag, before)
      modifies this
      ensures Logged(p, tag, before) && old(log) <= log
      ensures forall i :: |old(log)| <= i < |log| ==> log[i].Drop? && log[i].key in keys
      ensures forall k :: k in keys ==> Drop(k) in log[|old(log)|..]
      ensures objects == old(objects) - keys
    {
      var left := keys;
      while left != {}
        invariant left <= keys && Logged(p, tag, before) && old(log) <= log
        invariant forall i :: |old(log)| <= i < |log| ==> log[i].Drop? && log[i].key in keys
        invariant forall k :: k in keys - left ==> Drop(k) in log[|old(log)|..]
        invariant objects == old(objects) - (keys - left)
        decreases |left|
      {
        var k :| k in left;
        Remove(p, tag, k, before);
        left := left - {k};
      }
    }

    /** The command that looks for a key also finds the keys that it is a prefix of. */
    predicate HasManifest(p: Site)
      reads this
    {
      exists k :: k in objects && StartsWith(k, p.prefix + p.scope + "/manifest.json")
    }

    method SendPackages(p: Site, tag: string -> string, md5: string -> string, changed: set<string>,
                        ghost before: Bucket)
      requires changed <= Packages(p) && log == [] && objects == before
      modifies this
      ensures Logged(p, tag, before) && Phased(p, log, |log|, |log|, |log|)
      ensures Sent(log) == changed + Missing(p, md5, changed, before)
    {
      CopyAll(p, tag, changed, before);
      SentSince([], log, changed);
      SameMissing(p, tag, md5, changed, before, log);
      ghost var from := log;
      UploadMissingPackages(p, tag, md5, changed, before);
      SentSince(from, log, Missing(p, md5, changed, before));
    }

    method SendAll(p: Site, tag: string -> string, md5: string -> string, changed: set<string>, ghost before: Bucket)
      returns (ghost m: nat, ghost n: nat)
      requires changed <= Packages(p) && log == [] && objects == before
      modifies this
      ensures Logged(p, tag, before) && Phased(p, log, m, n, |log|)
      ensures Sent(log[..m]) == changed + Missing(p, md5, changed, before)
      ensures Sent(log[..n]) == Sent(log[..m]) + Metadata(p) && Sent(log) == Put(p, md5, changed, before)
    {
      SendPackages(p, tag, md5, changed, before);
      ghost var packages := log;
      CopyAll(p, tag, Metadata(p), before);
      SentSince(packages, log, Metadata(p));
      ghost var metadata := log;
      CopyAll(p, tag, SiteFiles(p), before);
      SentSince(metadata, log, SiteFiles(p));
      m, n := |packages|, |metadata|;
      assert log[..m] == packages && log[..n] == metadata;
    }

    method DropStale(p: Site, tag: string -> string, ghost before: Bucket)
      requires Logged(p, tag, before)
      modifies this
      ensures Logged(p, tag, before) && old(log) <= log
      ensures forall i :: |old(log)| <= i < |log| ==> log[i].Drop? && Doomed(p, log[i].key)
      ensures forall k :: Doomed(p, k) && k in old(objects) ==> Drop(k) in log[|old(log)|..]
    {
      RemoveAll(p, tag, {Key(p, RETIRED)}, before);
      var stale := Stale(p, objects);
      RemoveAll(p, tag, stale, before);
      assert forall k :: Doomed(p, k) && k in old(objects) && k != Key(p, RETIRED) ==> k in stale;
    }

    /** False stands for the refusal to publish over a channel that was not pulled. A command that fails ends the run
        after some of the operations. */
    method Execute(p: Site, tag: string -> string, md5: string -> string, changed: set<string>, first: bool)
      returns (ok: bool, ghost m: nat, ghost n: nat, ghost d: nat)
      requires changed <= Packages(p) && log == []
      modifies this
      ensures !ok <==> first && exists k :: k in old(objects) && StartsWith(k, p.prefix + p.scope + "/manifest.json")
      ensures !ok ==> objects == old(objects) && log == []
      ensures ok ==> Logged(p, tag, old(objects)) && Phased(p, log, m, n, d)
      ensures ok ==> Thorough(p, old(objects), log, m, n)
      ensures ok ==> Complete(p, tag, Put(p, md5, changed, old(objects)), old(objects), log, d)
    {
      hide Put, Replay;
      m, n, d := 0, 0, 0;
      if first && HasManifest(p) {
        return false, m, n, d;
      }
      m, n := SendAll(p, tag, md5, changed, objects);
      d := |log|;
      ghost var sent := log;
      DropStale(p, tag, old(objects));
      ok := true;
      assert log[..d] == sent && log[..m] == sent[..m] && log[..n] == sent[..n];
    }
  }

  /** Uploading some files does not change what the listing shows of the others. */
  lemma SameMissing(p: Site, tag: string -> string, md5: string -> string, changed: set<string>, before: Bucket,
                    ops: seq<Op>)
    requires changed <= Packages(p) && Sent(ops) == changed
    requires forall i :: 0 <= i < |ops| ==> ops[i].Send? && ops[i].file in p.tree
    ensures Missing(p, md5, changed, Replay(p, tag, before, ops)) == Missing(p, md5, changed, before)
  {
    var b := Replay(p, tag, before, ops);
    assert ops[..|ops|] == ops;
    ReplayHas(p, tag, before, ops, |ops|);
    forall r | r in Packages(p) && r !in changed
      ensures r in Missing(p, md5, changed, b) <==> r in Missing(p, md5, changed, before)
    {
      PutKey(p, changed, r);
    }
  }
}
