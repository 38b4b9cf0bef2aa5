/** The comparator that retention uses, by package format (scripts/pkgrepo/versions.py, comparator), and what retention
    with it keeps. */
module PackageVersions {
  import opened Options
  import opened Orders
  import opened Decimal
  import opened Scan
  import opened Nightly
  import opened NightlyOrder
  import opened Retention
  import opened RetentionNights
  import RpmOrder
  import DpkgOrder
  import PacmanOrder
  import ApkOrder

  /** The versions on which the four orders are total preorders. */
  datatype Version =
    | Rpm(rpm: RpmOrder.RpmVersion)
    | Deb(deb: DpkgOrder.DebVersion)
    | Arch(arch: PacmanOrder.Complete)
    | Apk(apk: ApkOrder.ApkVersion)

  function Format(v: Version): nat {
    match v
    case Rpm(_) => 0
    case Deb(_) => 1
    case Arch(_) => 2
    case Apk(_) => 3
  }

  /** A group holds versions of one format; between formats the order is arbitrary. */
  function Compare(x: Version, y: Version): int {
    match (x, y)
    case (Rpm(a), Rpm(b)) => RpmOrder.RpmOrder(a, b).value
    case (Deb(a), Deb(b)) => DpkgOrder.DebOrder(a, b).value
    case (Arch(a), Arch(b)) => PacmanOrder.PacmanOrder(a, b)
    case (Apk(a), Apk(b)) => ApkOrder.ApkCompare(a, b).value
    case _ => Cmp(Format(x), Format(y))
  }

  ghost predicate Laws<T(!new)>(cmp: (T, T) -> int, x: T, y: T, z: T) {
    cmp(x, y) == -cmp(y, x) && (cmp(x, y) <= 0 && cmp(y, z) <= 0 ==> cmp(x, z) <= 0)
  }

  lemma LawsOf<T(!new)>(cmp: (T, T) -> int, x: T, y: T, z: T)
    requires TotalPreorder(cmp)
    ensures Laws(cmp, x, y, z)
  {
  }

  lemma LawsInOneFormat(x: Version, y: Version, z: Version)
    requires Format(x) == Format(y) == Format(z)
    ensures Laws(Compare, x, y, z)
  {
    match x
    case Rpm(_) =>
      RpmOrder.VersionOrderIsTotalPreorder();
      LawsOf((a: RpmOrder.RpmVersion, b: RpmOrder.RpmVersion) => RpmOrder.RpmOrder(a, b).value, x.rpm, y.rpm, z.rpm);
    case Deb(_) =>
      DpkgOrder.VersionOrderIsTotalPreorder();
      LawsOf((a: DpkgOrder.DebVersion, b: DpkgOrder.DebVersion) => DpkgOrder.DebOrder(a, b).value, x.deb, y.deb, z.deb);
    case Arch(_) =>
      PacmanOrder.VersionOrderIsTotalPreorder();
      LawsOf((a: PacmanOrder.Complete, b: PacmanOrder.Complete) => PacmanOrder.PacmanOrder(a, b), x.arch, y.arch,
        z.arch);
    case Apk(_) =>
      ApkOrder.ApkCompareIsTotalPreorder();
      LawsOf((a: ApkOrder.ApkVersion, b: ApkOrder.ApkVersion) => ApkOrder.ApkCompare(a, b).value, x.apk, y.apk, z.apk);
  }

  lemma CompareIsTotalPreorder()
    ensures TotalPreorder(Compare)
  {
    forall x, y ensures Compare(x, y) == -Compare(y, x) {
      if Format(x) == Format(y) {
        LawsInOneFormat(x, y, x);
      }
    }
    forall x, y, z | Compare(x, y) <= 0 && Compare(y, z) <= 0 ensures Compare(x, z) <= 0 {
      if Format(x) == Format(y) == Format(z) {
        LawsInOneFormat(x, y, z);
      }
    }
  }

  /** Every group uses the comparator of its format. */
  function Order<G>(): G -> ((Version, Version) -> int) {
    (g: G) => Compare
  }

  lemma OrderIsOrdered<G(!new)>()
    ensures Ordered<G, Version>(Order())
  {
    CompareIsTotalPreorder();
  }

  /** The nightly channel with the real comparators, after a night for each batch. */
  method RunChannel<G(==,!new), P(!new)>(batches: seq<seq<Entry<G, Version, P>>>, keep: nat)
      returns (channel: seq<Entry<G, Version, P>>)
    requires keep >= 1 && NeverTie(Order(), Everything(Maps(batches)))
    ensures MapOf(channel) == Keep(Order(), keep, Everything(Maps(batches)))
  {
    OrderIsOrdered<G>();
    channel := RetentionNights.RunNights(Order(), batches, keep);
  }

  /** The hypothesis is needed: zeros in front of a number do not count, and then the order of the entries decides. */
  lemma VersionsCanTie()
    ensures var x, y := "1.0", "1.00";
      && RpmOrder.ParseRpm(x).Some? && RpmOrder.ParseRpm(y).Some?
      && Compare(Rpm(x), Rpm(y)) == 0
  {
    RpmOrder.ParseWithRelease("1.0", None);
    RpmOrder.ParseWithRelease("1.00", None);
    RpmDotted("1", "0");
    RpmDotted("1", "00");
    RpmNumber("0");
    RpmNumber("00");
    assert "0"[..0] == "" && "00"[..1] == "0";
    assert Value("0") == 0 && Value("00") == 0;
    assert Dotted("1", "0") == "1.0" && Dotted("1", "00") == "1.00";
    RpmOrder.CompareIsTotalPreorder();
    assert RpmOrder.Compare("1.0", "1.00") == -RpmOrder.Compare("1.00", "1.0");
    assert RpmOrder.Compare("", "") == -RpmOrder.Compare("", "");
  }

  // Nightlies of one base.

  /** `x` is the version of the nightly `v` in its format, with any release. */
  ghost predicate Spells(x: Version, v: NightlyVersion) {
    match x
    case Rpm(rpm) => RpmOrder.ParseRpm(rpm).value.epoch == 0 && RpmOrder.ParseRpm(rpm).value.version == v.Rpm()
    case Deb(deb) => DpkgOrder.SplitDeb(deb).value.epoch == 0 && DpkgOrder.SplitDeb(deb).value.version == v.Deb()
    case Arch(arch) => PacmanOrder.SplitEvr(arch).epoch == "0" && PacmanOrder.SplitEvr(arch).pkgver == v.Arch()
    case Apk(apk) => IsDate(v.date) && v.date[0] != '0' && exists release :: apk == v.Apk() + ApkRelease(release)
  }

  /** The order of the nightlies of one base in the format of `x`: by date and count, and for Alpine by the number of
      digits of the count first. */
  predicate Follows(x: Version, v: NightlyVersion, w: NightlyVersion) {
    if x.Apk? then LaterByDigits(v, w) else Later(v, w)
  }

  lemma FollowingIsNewer(x: Version, y: Version, v: NightlyVersion, w: NightlyVersion, c: Core)
    requires IsNightly(v, c) && IsNightly(w, c) && Spells(x, v) && Spells(y, w) && Format(x) == Format(y)
    requires Follows(x, v, w)
    ensures Compare(x, y) == -1
  {
    match x
    case Rpm(_) => RpmGrows(v, w, c);
    case Deb(_) => DebGrows(v, w, c);
    case Arch(_) =>
      PacGrows(v, w, c);
      PacmanOrder.TokenCmpIsReflexive();
      LexReflexive(PacmanOrder.TokenCmp, PacmanOrder.End, PacmanOrder.Tokens("0"));
    case Apk(_) =>
      var m :| x.apk == v.Apk() + ApkRelease(m);
      var n :| y.apk == w.Apk() + ApkRelease(n);
      StrCmpAntisymmetric(v.date, w.date);
      ApkNewerIff(v, w, c, m, n);
  }

  lemma CompareAntisymmetric(x: Version, y: Version)
    ensures Compare(x, y) == -Compare(y, x)
  {
    CompareIsTotalPreorder();
  }

  lemma OneFollows(x: Version, v: NightlyVersion, w: NightlyVersion)
    ensures Follows(x, v, w) || Follows(x, w, v) || (v.date == w.date && v.count == w.count)
    ensures v.date == w.date && v.count == w.count ==> !Follows(x, v, w)
  {
    OneIsLater(v, w);
    LaterIsAsymmetric(v, w);
  }

  lemma NewerIffFollows(x: Version, y: Version, v: NightlyVersion, w: NightlyVersion, c: Core)
    requires IsNightly(v, c) && IsNightly(w, c) && Spells(x, v) && Spells(y, w) && Format(x) == Format(y)
    requires if x == y then v == w else v.date != w.date || v.count != w.count
    ensures Compare(y, x) > 0 <==> Follows(x, v, w)
    ensures Compare(y, x) == 0 <==> x == y
  {
    CompareAntisymmetric(x, y);
    OneFollows(x, v, w);
    if Follows(x, v, w) {
      FollowingIsNewer(x, y, v, w, c);
    } else if Follows(x, w, v) {
      FollowingIsNewer(y, x, w, v, c);
    }
  }

  /** A group of nightlies of one base in one format, at most one for a date and a commit count. */
  ghost predicate AreNightlies(versions: set<Version>, nightly: Version -> NightlyVersion, c: Core) {
    && (forall x :: x in versions ==> IsNightly(nightly(x), c) && Spells(x, nightly(x)))
    && (forall x, y :: x in versions && y in versions ==>
         && Format(x) == Format(y)
         && (x != y ==> nightly(x).date != nightly(y).date || nightly(x).count != nightly(y).count))
  }

  lemma NewerInGroup(versions: set<Version>, nightly: Version -> NightlyVersion, c: Core, x: Version, y: Version)
    requires AreNightlies(versions, nightly, c) && x in versions && y in versions
    ensures Compare(y, x) > 0 <==> Follows(x, nightly(x), nightly(y))
    ensures Compare(y, x) == 0 <==> x == y
  {
    var v, w := nightly(x), nightly(y);
    assert Spells(x, v) && Spells(y, w);
    NewerIffFollows(x, y, v, w, c);
  }

  /** The nightlies that follow `x` in its group. */
  ghost function Followers<G, P>(m: map<Key<G, Version>, P>, nightly: Version -> NightlyVersion, x: Key<G, Version>)
      : set<Version> {
    set y | y in Versions(m, x.group) && Follows(x.version, nightly(x.version), nightly(y))
  }

  lemma AboveAreFollowers<G, P>(m: map<Key<G, Version>, P>, nightly: Version -> NightlyVersion, c: Core,
                                x: Key<G, Version>)
    requires x in m && AreNightlies(Versions(m, x.group), nightly, c)
    ensures Above(Compare, Versions(m, x.group), x.version) == Followers(m, nightly, x)
  {
    forall y | y in Versions(m, x.group)
      ensures Compare(y, x.version) > 0 <==> Follows(x.version, nightly(x.version), nightly(y))
    {
      NewerInGroup(Versions(m, x.group), nightly, c, x.version, y);
    }
  }

  /** Every group holds nightlies of one base. */
  ghost predicate AllNightlies<G(!new), P>(m: map<Key<G, Version>, P>, nightly: Version -> NightlyVersion,
                                           base: G -> Core) {
    forall g :: AreNightlies(Versions(m, g), nightly, base(g))
  }

  lemma NightliesNeverTie<G(!new), P>(m: map<Key<G, Version>, P>, nightly: Version -> NightlyVersion, base: G -> Core)
    requires AllNightlies(m, nightly, base)
    ensures NeverTie(Order(), m)
  {
    forall x, y | x in m && y in m && x.group == y.group && Compare(x.version, y.version) == 0 ensures x == y {
      assert AreNightlies(Versions(m, x.group), nightly, base(x.group));
      NewerInGroup(Versions(m, x.group), nightly, base(x.group), y.version, x.version);
    }
  }

  /** Between two releases the channel holds, after a night for each batch, exactly the builds that fewer than `keep`
      builds of their group follow: by date and commit count, and for Alpine by the digits of the count first. */
  method RunNightlies<G(==,!new), P(!new)>(batches: seq<seq<Entry<G, Version, P>>>, keep: nat,
                                           ghost nightly: Version -> NightlyVersion, ghost base: G -> Core)
      returns (channel: seq<Entry<G, Version, P>>)
    requires keep >= 1 && AllNightlies(Everything(Maps(batches)), nightly, base)
    ensures forall x :: x in MapOf(channel) <==>
      x in Everything(Maps(batches)) && |Followers(Everything(Maps(batches)), nightly, x)| < keep
  {
    ghost var all := Everything(Maps(batches));
    NightliesNeverTie(all, nightly, base);
    channel := RunChannel(batches, keep);
    forall x | x in all ensures x in MapOf(channel) <==> |Followers(all, nightly, x)| < keep {
      assert AreNightlies(Versions(all, x.group), nightly, base(x.group));
      AboveAreFollowers(all, nightly, base(x.group), x);
    }
  }
}
