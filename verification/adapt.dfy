/** Adapting to the running kernel: which fields exist, and how many bytes to ask for. */
module Adapt {
  import opened Kernel

  datatype Row = Row(version: VersionInfo, size: nat)

  predicate Reaches(table: seq<Row>, v: VersionInfo, i: nat)
    requires i < |table|
  {
    AtLeast(v, table[i].version)
  }

  ghost predicate Ascending(table: seq<Row>) {
    forall i, j :: 0 <= i < j < |table| ==> CompareKernelVersion(table[i].version, table[j].version) < 0
  }

  lemma {:induction false} AscendingFromNeighbours(table: seq<Row>)
    requires forall i :: 0 <= i < |table| - 1 ==> CompareKernelVersion(table[i].version, table[i + 1].version) < 0
    ensures Ascending(table)
  {
    if |table| > 1 {
      var n := |table| - 1;
      AscendingFromNeighbours(table[..n]);
      forall i, j | 0 <= i < j < |table| ensures CompareKernelVersion(table[i].version, table[j].version) < 0 {
        assert i < n && table[i] == table[..n][i];
        if j < n {
          assert table[j] == table[..n][j];
        } else if i < n - 1 {
          assert CompareKernelVersion(table[i].version, table[n - 1].version) < 0 by {
            assert table[n - 1] == table[..n][n - 1];
          }
          assert CompareKernelVersion(table[n - 1].version, table[n].version) < 0;
        }
      }
    }
  }

  /** Row i is the greatest one not above v. */
  ghost predicate IsGreatest(table: seq<Row>, v: VersionInfo, i: int) {
    && 0 <= i < |table|
    && Reaches(table, v, i)
    && forall j :: i < j < |table| ==> !Reaches(table, v, j)
  }

  /** The package variables that adaptation writes. */
  datatype Settings = Settings(flags: seq<bool>, size: nat)

  /** What one adaptation must leave behind. */
  ghost predicate Adapted(table: seq<Row>, v: VersionInfo, before: Settings, after: Settings) {
    && |after.flags| == |table|
    && (forall j :: 0 <= j < |table| ==> (after.flags[j] <==> Reaches(table, v, j)))
    && (forall i :: IsGreatest(table, v, i) ==> after.size == table[i].size)
    && ((forall j :: 0 <= j < |table| ==> !Reaches(table, v, j)) ==> after.size == before.size)
  }

  class Adapter {
    const table: seq<Row>
    var flags: array<bool>
    var sizeOfRawTCPInfo: nat

    ghost predicate Valid()
      reads this
    {
      flags.Length == |table| && Ascending(table)
    }

    ghost function Current(): Settings
      reads this, flags
    {
      Settings(flags[..], sizeOfRawTCPInfo)
    }

    constructor (rows: seq<Row>)
      requires Ascending(rows)
      ensures Valid() && table == rows && fresh(flags)
      ensures sizeOfRawTCPInfo == 0 && forall i :: 0 <= i < flags.Length ==> !flags[i]
    {
      table := rows;
      flags := new bool[|rows|](_ => false);
      sizeOfRawTCPInfo := 0;
    }

    /** adaptToKernelVersion, for any earlier flag values. */
    method AdaptTo(v: VersionInfo)
      requires Valid()
      modifies this`sizeOfRawTCPInfo, flags
      ensures Valid() && flags == old(flags)
      ensures Adapted(table, v, old(Current()), Current())
    {
      var i := |table| - 1;
      while i >= 0
        invariant -1 <= i < |table|
        invariant flags.Length == |table|
        invariant sizeOfRawTCPInfo == old(sizeOfRawTCPInfo)
        invariant forall j :: i < j < |table| ==> !Reaches(table, v, j) && !flags[j]
      {
        if CompareKernelVersion(v, table[i].version) >= 0 {
          sizeOfRawTCPInfo := table[i].size;
          var j := i;
          while j >= 0
            invariant -1 <= j <= i
            invariant flags.Length == |table| && sizeOfRawTCPInfo == table[i].size
            invariant forall m :: j < m <= i ==> flags[m]
            invariant forall m :: i < m < |table| ==> !flags[m]
          {
            flags[j] := true;
            j := j - 1;
          }
          assert IsGreatest(table, v, i);
          OlderRowsReached(table, v, i);
          return;
        } else {
          flags[i] := false;
        }
        i := i - 1;
      }
    }
  }

  lemma OlderRowsReached(table: seq<Row>, v: VersionInfo, i: nat)
    requires Ascending(table) && i < |table| && Reaches(table, v, i)
    ensures forall j :: 0 <= j <= i ==> Reaches(table, v, j)
  {
    forall j | 0 <= j < i ensures Reaches(table, v, j) {
      AtLeastIsTotalPreorder(v, table[i].version, table[j].version);
      AtLeastIsTotalPreorder(table[i].version, table[j].version, v);
    }
  }

  /** Adapting is a function of the table, the version and, below every row, the earlier size. */
  lemma AdaptedIsUnique(table: seq<Row>, v: VersionInfo, before: Settings, a: Settings, b: Settings)
    requires Adapted(table, v, before, a) && Adapted(table, v, before, b)
    ensures a == b
  {
    assert a.flags == b.flags;
    GreatestExists(table, v, |table|);
  }

  lemma {:induction false} GreatestExists(table: seq<Row>, v: VersionInfo, n: nat)
    requires n <= |table| && forall j :: n <= j < |table| ==> !Reaches(table, v, j)
    ensures (forall j :: 0 <= j < |table| ==> !Reaches(table, v, j)) || exists i :: IsGreatest(table, v, i)
  {
    if n > 0 {
      if Reaches(table, v, n - 1) {
        assert IsGreatest(table, v, n - 1);
      } else {
        GreatestExists(table, v, n - 1);
      }
    }
  }

  /** A history of adaptations: `states[0]` is arbitrary, `states[i + 1]` is the result of adapting to `vs[i]`. */
  ghost predicate History(table: seq<Row>, vs: seq<VersionInfo>, states: seq<Settings>) {
    && |states| == |vs| + 1
    && forall i :: 0 <= i < |vs| ==> Adapted(table, vs[i], states[i], states[i + 1])
  }

  /**
   However often the version is overridden, and whatever the first settings were: when the oldest flag is
   set, the size is that of the greatest row not above the latest version. A stale size is never used.
   */
  lemma SizeIsNeverStale(table: seq<Row>, vs: seq<VersionInfo>, states: seq<Settings>)
    requires History(table, vs, states) && vs != [] && table != []
    ensures var last := states[|vs|];
            var v := vs[|vs| - 1];
            && (forall j :: 0 <= j < |table| ==> (last.flags[j] <==> Reaches(table, v, j)))
            && (last.flags[0] ==> exists i :: IsGreatest(table, v, i) && last.size == table[i].size)
  {
    var v := vs[|vs| - 1];
    assert Adapted(table, v, states[|vs| - 1], states[|vs|]);
    GreatestExists(table, v, |table|);
    if states[|vs|].flags[0] {
      assert Reaches(table, v, 0);
    }
  }
}
