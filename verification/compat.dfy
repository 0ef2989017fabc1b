/** Which container builds a Windows host can run. */
module Compat {

  const LTSC2022: nat := 20348
  const LTSC2025: nat := 26100

  const COMPAT_LTSC_RELEASES: seq<nat> := [LTSC2022, LTSC2025]

  datatype OSVersion = OSVersion(major: nat, minor: nat, build: nat)

  /** The list is ascending and starts at LTSC2022. */
  ghost predicate WellFormed(releases: seq<nat>) {
    && releases != [] && releases[0] == LTSC2022
    && forall i, j :: 0 <= i < j < |releases| ==> releases[i] < releases[j]
  }

  /** `r` is the greatest listed release strictly below the build. */
  ghost predicate IsPrevious(releases: seq<nat>, build: nat, r: nat) {
    r in releases && r < build && forall x :: x in releases && x < build ==> x <= r
  }

  /** The lowest container build a host accepts. */
  ghost predicate IsFloor(releases: seq<nat>, build: nat, lo: nat) {
    if build <= LTSC2022 then lo == build else IsPrevious(releases, build, lo)
  }

  /** CheckHostAndContainerCompat, for any list of releases. */
  method CheckHostAndContainerCompat(releases: seq<nat>, host: OSVersion, ctr: OSVersion) returns (ok: bool)
    requires WellFormed(releases)
    ensures ok <==> Compatible(releases, host, ctr)
  {
    if host.major != ctr.major || host.minor != ctr.minor {
      return false;
    }
    if host.build < LTSC2022 {
      assert IsFloor(releases, host.build, host.build);
      return host.build == ctr.build;
    }
    var supported := LTSC2022;
    var i := |releases| - 1;
    while i >= 0
      invariant -1 <= i < |releases| && supported == LTSC2022
      invariant forall j :: i < j < |releases| ==> host.build <= releases[j]
    {
      if host.build > releases[i] {
        supported := releases[i];
        FoundPrevious(releases, host.build, i);
        break;
      }
      i := i - 1;
    }
    assert IsFloor(releases, host.build, supported);
    FloorIsUnique(releases, host.build, supported);
    return supported <= ctr.build && ctr.build <= host.build;
  }

  /** The declarative reading: same version line, and a build between the host's floor and the host itself. */
  ghost predicate Compatible(releases: seq<nat>, host: OSVersion, ctr: OSVersion) {
    && host.major == ctr.major
    && host.minor == ctr.minor
    && ctr.build <= host.build
    && forall lo: nat :: IsFloor(releases, host.build, lo) ==> lo <= ctr.build
  }

  lemma FloorIsUnique(releases: seq<nat>, build: nat, a: nat)
    requires IsFloor(releases, build, a)
    ensures forall b: nat :: IsFloor(releases, build, b) ==> b == a
  {
  }

  /** Every host has a floor, and it is not above the host. */
  lemma FloorExists(releases: seq<nat>, build: nat) returns (lo: nat)
    requires WellFormed(releases)
    ensures IsFloor(releases, build, lo) && lo <= build
    ensures build >= LTSC2022 ==> lo >= LTSC2022
  {
    if build <= LTSC2022 {
      lo := build;
    } else {
      lo := PreviousExists(releases, build, |releases|);
    }
  }

  lemma FoundPrevious(releases: seq<nat>, build: nat, i: nat)
    requires WellFormed(releases) && i < |releases| && build > releases[i]
    requires forall j :: i < j < |releases| ==> build <= releases[j]
    ensures IsPrevious(releases, build, releases[i]) && releases[i] >= LTSC2022
  {
    forall x | x in releases && x < build ensures x <= releases[i] {
      var j :| 0 <= j < |releases| && releases[j] == x;
      assert j <= i;
    }
  }

  lemma {:induction false} PreviousExists(releases: seq<nat>, build: nat, n: nat) returns (r: nat)
    requires WellFormed(releases) && build > LTSC2022 && 1 <= n <= |releases|
    requires forall j :: n <= j < |releases| ==> build <= releases[j]
    ensures IsPrevious(releases, build, r) && r >= LTSC2022
  {
    if build > releases[n - 1] {
      r := releases[n - 1];
      FoundPrevious(releases, build, n - 1);
    } else {
      r := PreviousExists(releases, build, n - 1);
    }
  }

  /** A host runs containers of its own build, and none that are newer. */
  lemma RunsItself(releases: seq<nat>, host: OSVersion, ctr: OSVersion)
    requires WellFormed(releases)
    ensures Compatible(releases, host, host)
    ensures Compatible(releases, host, ctr) ==> ctr.build <= host.build
  {
    var lo := FloorExists(releases, host.build);
    FloorIsUnique(releases, host.build, lo);
  }

  /** The accepted builds are one interval that ends at the host; it is the host alone below LTSC2022. */
  lemma AcceptsOneInterval(releases: seq<nat>, host: OSVersion, build: nat) returns (lo: nat)
    requires WellFormed(releases)
    ensures lo <= host.build
    ensures Compatible(releases, host, host.(build := build)) <==> lo <= build <= host.build
    ensures host.build <= LTSC2022 ==> lo == host.build
  {
    lo := FloorExists(releases, host.build);
    FloorIsUnique(releases, host.build, lo);
  }

  /** A newer host never accepts an older container than an older host does. */
  lemma FloorIsMonotone(releases: seq<nat>, a: nat, b: nat, lo: nat, hi: nat)
    requires WellFormed(releases) && a <= b && IsFloor(releases, a, lo) && IsFloor(releases, b, hi)
    ensures lo <= hi
  {
    var f := FloorExists(releases, b);
    FloorIsUnique(releases, b, f);
    if a > LTSC2022 {
      assert lo in releases && lo < b;
    }
  }

  /** Every release after the first supports containers of the one before it, and nothing older. */
  lemma SupportsPreviousRelease(releases: seq<nat>, i: nat, host: OSVersion)
    requires WellFormed(releases) && 0 < i < |releases| && host.build == releases[i]
    ensures IsFloor(releases, host.build, releases[i - 1])
    ensures Compatible(releases, host, host.(build := releases[i - 1]))
  {
    FoundPrevious(releases, host.build, i - 1);
    FloorIsUnique(releases, host.build, releases[i - 1]);
  }

  lemma ReleasesWellFormed()
    ensures WellFormed(COMPAT_LTSC_RELEASES)
  {
  }
}
