/** What a complete run sends and deletes, in terms of names, sizes and digests (scripts/pkgrepo/publish.py). */
module PublishLaws {
  import opened Options
  import opened Publish

  // The names.

  lemma BaseBehindSlash(above: string, name: string)
    requires '/' !in name
    ensures Base(name) == name && Base(above + "/" + name) == name
  {
    BaseBelow(above, name);
    NoSlashNoBase(name);
  }

  lemma {:induction false} NoSlashNoBase(name: string)
    requires '/' !in name
    ensures BaseAt(name) == 0
  {
    if |name| > 0 {
      assert name[|name| - 1] != '/';
      NoSlashNoBase(name[..|name| - 1]);
    }
  }

  /** Which files are packages is a matter of their names alone. */
  lemma PackageFileIff(above: string, name: string)
    requires '/' !in name
    ensures IsPackageFile(above + "/" + name) <==>
      || EndsWith(name, ".rpm") || EndsWith(name, ".deb") || EndsWith(name, ".apk")
      || exists i :: 0 <= i <= |name| && OccursAt(name, ".pkg.tar.", i)
  {
    BaseBehindSlash(above, name);
    SuffixIsOne(name);
  }

  lemma SuffixIsOne(s: string)
    ensures HasPackageSuffix(s) <==> EndsWith(s, ".rpm") || EndsWith(s, ".deb") || EndsWith(s, ".apk")
  {
    assert PACKAGE_SUFFIXES[0] == ".rpm" && PACKAGE_SUFFIXES[1] == ".deb" && PACKAGE_SUFFIXES[2] == ".apk";
  }

  lemma MainOfSig(r: string)
    ensures Main(r + ".sig") == r
  {
    var sig := r + ".sig";
    assert sig[..|r|] == r && sig[|r|..] == ".sig";
  }

  lemma MainIs(above: string, name: string)
    requires '/' !in name && !EndsWith(name, ".sig")
    ensures var r := above + "/" + name;
      Main(r) == r && Main(r + ".sig") == r && Base(r) == name
  {
    hide Base, EndsWith;
    BaseBehindSlash(above, name);
    SigIsInName(above, name);
    MainOfSig(above + "/" + name);
  }

  /** A package has changed if and only if the manifest does not have its name with its sha256, and a signature has
      changed if and only if its package has. */
  lemma ChangedIff(p: Site, sha: string -> string, published: map<string, string>, above: string, name: string)
    requires '/' !in name && !EndsWith(name, ".sig") && above + "/" + name in p.tree
    ensures var r := above + "/" + name;
      && Main(r) == r && Main(r + ".sig") == r
      && (IsChanged(p, sha, Some(published), r) <==> name !in published || published[name] != sha(p.tree[r]))
      && (IsChanged(p, sha, Some(published), r + ".sig") <==> IsChanged(p, sha, Some(published), r))
      && IsChanged(p, sha, None, r) && IsChanged(p, sha, None, r + ".sig")
  {
    hide Main, Base;
    MainIs(above, name);
  }

  lemma SigIsInName(above: string, name: string)
    requires '/' !in name && !EndsWith(name, ".sig")
    ensures !EndsWith(above + "/" + name, ".sig")
  {
    var r := above + "/" + name;
    if EndsWith(r, ".sig") {
      SuffixIsInBase(r, ".sig");
      BaseBehindSlash(above, name);
    }
  }

  // What is sent.

  lemma SentIff(ops: seq<Op>, r: string, p: Site, m: nat, n: nat, d: nat)
    requires Phased(p, ops, m, n, d)
    ensures Send(r) in ops <==> r in Sent(ops[..d])
  {
    if Send(r) in ops {
      var i :| 0 <= i < |ops| && ops[i] == Send(r);
      assert i < d;
      assert ops[..d][i] == Send(r);
    }
  }

  /** In a complete run a changed package is sent, and another one if and only if its key is not in the bucket, its size
      differs, or the ETag of the object is an md5 in hexadecimal digits and not the one of the file. */
  lemma PackageIsSentIff(p: Site, tag: string -> string, md5: string -> string, changed: set<string>, before: Bucket,
                         ops: seq<Op>, m: nat, n: nat, d: nat, r: string)
    requires changed <= Packages(p) && AreFiles(p) && Phased(p, ops, m, n, d)
    requires Complete(p, tag, Put(p, md5, changed, before), before, ops, d)
    requires r in Packages(p)
    ensures var key, content := p.prefix + r, p.tree[r];
      Send(r) in ops <==>
        || r in changed
        || key !in before
        || |before[key].content| != |content|
        || (|before[key].etag| == 32
            && (forall i :: 0 <= i < 32 ==> before[key].etag[i] in "0123456789abcdefABCDEF")
            && !(|md5(content)| == 32
                 && forall i :: 0 <= i < 32 ==>
                      var c := before[key].etag[i];
                      md5(content)[i] == if 'A' <= c <= 'F' then c - 'A' + 'a' else c))
  {
    hide Missing, Complete, Phased;
    SentPackages(p, tag, md5, changed, before, ops, m, n, d, r);
    TreeKeysAreListed(p, r);
    if r !in changed {
      MissingIff(p, md5, changed, before, r);
    }
  }

  lemma SentPackages(p: Site, tag: string -> string, md5: string -> string, changed: set<string>, before: Bucket,
                     ops: seq<Op>, m: nat, n: nat, d: nat, r: string)
    requires changed <= Packages(p) && Phased(p, ops, m, n, d)
    requires Complete(p, tag, Put(p, md5, changed, before), before, ops, d)
    requires r in Packages(p)
    ensures Send(r) in ops <==> r in changed || r in Missing(p, md5, changed, before)
  {
    SentIff(ops, r, p, m, n, d);
    Partition(p);
    if '/' !in r {
      SiteFilesAreOutside(p, r);
    }
  }

  /** At the end of a complete run a package's object is its file, or was not touched and has its size and no other md5
      for an ETag. */
  lemma PackageEndsAs(p: Site, tag: string -> string, md5: string -> string, changed: set<string>, before: Bucket,
                      ops: seq<Op>, m: nat, n: nat, d: nat, r: string)
    requires changed <= Packages(p) && AreFiles(p) && Phased(p, ops, m, n, d)
    requires Complete(p, tag, Put(p, md5, changed, before), before, ops, d)
    requires r in Packages(p)
    ensures var key, content, after := p.prefix + r, p.tree[r], Replay(p, tag, before, ops);
      && key in after
      && (after[key].content == content
          || (&& r !in changed && key in before && after[key] == before[key] && |after[key].content| == |content|
              && (|after[key].etag| == 32
                  && (forall i :: 0 <= i < 32 ==> after[key].etag[i] in "0123456789abcdefABCDEF") ==>
                    && |md5(content)| == 32
                    && forall i :: 0 <= i < 32 ==>
                         var c := after[key].etag[i];
                         md5(content)[i] == if 'A' <= c <= 'F' then c - 'A' + 'a' else c)))
  {
    hide SameObject, Replay, Put, Missing;
    var put, after := Put(p, md5, changed, before), Replay(p, tag, before, ops);
    CompleteRunEnds(p, tag, put, before, ops, m, n, d);
    PackageIsSentIff(p, tag, md5, changed, before, ops, m, n, d, r);
    TreeFileAt(p, md5, changed, before, after, r);
    Partition(p);
    SentIff(ops, r, p, m, n, d);
    PutKey(p, put, r);
  }

  /** If the ETags of the bucket are what they look like, and no two files have one md5, every package's object is its
      file at the end. */
  lemma TrueEtagsMakeTruePackages(p: Site, tag: string -> string, md5: string -> string, changed: set<string>,
                                  before: Bucket, ops: seq<Op>, m: nat, n: nat, d: nat, r: string)
    requires changed <= Packages(p) && AreFiles(p) && Phased(p, ops, m, n, d)
    requires Complete(p, tag, Put(p, md5, changed, before), before, ops, d)
    requires r in Packages(p)
    requires forall k :: k in before ==> IsMd5(before[k].etag) && LowerAll(before[k].etag) == md5(before[k].content)
    requires forall x, y :: md5(x) == md5(y) ==> x == y
    ensures p.prefix + r in Replay(p, tag, before, ops)
    ensures Replay(p, tag, before, ops)[p.prefix + r].content == p.tree[r]
  {
    hide Replay, Put, Complete, Phased, LowerAll, IsMd5;
    PackageEndsAs(p, tag, md5, changed, before, ops, m, n, d, r);
    var key := p.prefix + r;
    if key in before {
      Md5Is(before[key].etag);
      LowerIs(md5(p.tree[r]), before[key].etag);
    }
  }

  /** What else a run sends: the files of the channel that no pattern excludes, and the files of the site's root. */
  lemma OtherIsSentIff(p: Site, tag: string -> string, md5: string -> string, changed: set<string>, before: Bucket,
                       ops: seq<Op>, m: nat, n: nat, d: nat, r: string)
    requires changed <= Packages(p) && Phased(p, ops, m, n, d)
    requires Complete(p, tag, Put(p, md5, changed, before), before, ops, d)
    requires r !in Packages(p)
    ensures StartsWith(r, p.scope + "/") ==>
      var path := r[|p.scope| + 1..];
      var excluded := EndsWith(path, ".rpm") || EndsWith(path, ".deb") || EndsWith(path, ".apk")
        || exists i :: 0 <= i <= |path| && OccursAt(path, ".pkg.tar.", i);
      (Send(r) in ops <==> r in p.tree && !excluded)
    ensures !StartsWith(r, p.scope + "/") ==>
      (Send(r) in ops <==>
        r in p.tree && '/' !in r && (r == "gpg.key" || r == "setup.sh" || EndsWith(r, ".rsa.pub")))
  {
    SentIff(ops, r, p, m, n, d);
    if StartsWith(r, p.scope + "/") {
      BelowHasSlash(p, r);
      SuffixIsOne(r[|p.scope| + 1..]);
    }
  }

  /** The keys at the end: the retired page is gone, and a key of the channel is one that was there or was sent, of a
      file of the tree. */
  lemma KeyEndsAs(p: Site, tag: string -> string, md5: string -> string, changed: set<string>, before: Bucket,
                  ops: seq<Op>, m: nat, n: nat, d: nat, k: string)
    requires changed <= Packages(p) && AreFiles(p) && Phased(p, ops, m, n, d)
    requires Complete(p, tag, Put(p, md5, changed, before), before, ops, d)
    ensures var after := Replay(p, tag, before, ops);
      && p.prefix + "index.html" !in after
      && (StartsWith(k, p.prefix + p.scope + "/") && !EndsWith(k, "/") ==>
           (k in after <==> exists r :: r in TreeFiles(p) && k == Key(p, r) && (k in before || Send(r) in ops)))
  {
    hide Replay, Put;
    var put, after := Put(p, md5, changed, before), Replay(p, tag, before, ops);
    CompleteRunEnds(p, tag, put, before, ops, m, n, d);
    assert p.prefix + p.scope + "/" == p.prefix + (p.scope + "/");
    if InChannel(p, k) && !EndsWith(k, "/") {
      SiteFilesAreOutside(p, RETIRED);
      forall r | r in TreeFiles(p) && k == Key(p, r) ensures k in Keys(p, put) <==> Send(r) in ops {
        PutKey(p, put, r);
        SentIff(ops, r, p, m, n, d);
      }
      if k in after {
        assert k in Keys(p, TreeFiles(p));
        assert k == Key(p, FileOf(p, k));
      }
      forall r | r in TreeFiles(p) && k == Key(p, r) ensures !Doomed(p, k) {
        TreeKeyIsNotDoomed(p, r);
      }
    }
  }
}
