/** The order in which httpstat prints response headers. */
module Headers {

  /** Go's string order: UTF-8 keeps the order of code points. */
  predicate Below(a: string, b: string) {
    if b == [] then false
    else if a == [] then true
    else if a[0] != b[0] then a[0] < b[0]
    else Below(a[1..], b[1..])
  }

  /** The hop-by-hop headers of section 13.5.1 of RFC 2616. */
  predicate EndToEnd(n: string) {
    n !in {"Connection", "Keep-Alive", "Proxy-Authenticate", "Proxy-Authorization", "TE", "Trailers", "Transfer-Encoding", "Upgrade"}
  }

  predicate Less(a: string, b: string) {
    if a == "Server" then true
    else if b == "Server" then false
    else if EndToEnd(a) == EndToEnd(b) then Below(a, b)
    else EndToEnd(a)
  }

  /** Server, then end-to-end headers, then hop-by-hop headers. */
  function Class(n: string): nat {
    if n == "Server" then 0 else if EndToEnd(n) then 1 else 2
  }

  /** The order the printout promises: by class, then by name. */
  predicate Before(a: string, b: string) {
    Class(a) < Class(b) || (Class(a) == Class(b) && Below(a, b))
  }

  lemma {:induction false} BelowIrreflexive(a: string)
    ensures !Below(a, a)
  {
    if a != [] {
      BelowIrreflexive(a[1..]);
    }
  }

  lemma {:induction false} BelowTotal(a: string, b: string)
    requires a != b
    ensures Below(a, b) <==> !Below(b, a)
  {
    if a != [] && b != [] && a[0] == b[0] {
      assert a == [a[0]] + a[1..] && b == [b[0]] + b[1..];
      BelowTotal(a[1..], b[1..]);
    }
  }

  lemma {:induction false} BelowTransitive(a: string, b: string, c: string)
    requires Below(a, b) && Below(b, c)
    ensures Below(a, c)
  {
    if a != [] && a[0] == b[0] == c[0] {
      BelowTransitive(a[1..], b[1..], c[1..]);
    }
  }

  /** The length of the common beginning of two names. */
  function Common(a: string, b: string): (i: nat)
    ensures i <= |a| && i <= |b| && a[..i] == b[..i]
    ensures i < |a| && i < |b| ==> a[i] != b[i]
  {
    if a == [] || b == [] || a[0] != b[0] then 0
    else
      var i := 1 + Common(a[1..], b[1..]);
      assert a[..i] == [a[0]] + a[1..][..i - 1] && b[..i] == [b[0]] + b[1..][..i - 1];
      i
  }

  /** A name is below another when it is a proper beginning of it, or has the smaller character where they first differ. */
  lemma {:induction false} BelowMeans(a: string, b: string)
    ensures Below(a, b) <==> Common(a, b) < |b| && (Common(a, b) == |a| || a[Common(a, b)] < b[Common(a, b)])
  {
    if a != [] && b != [] && a[0] == b[0] {
      BelowMeans(a[1..], b[1..]);
    }
  }

  /** The classes: Server alone, the hop-by-hop headers that section 13.5.1 of RFC 2616 lists, and all others between. */
  lemma ClassesAre(n: string)
    ensures Class(n) == 0 <==> n == "Server"
    ensures Class(n) == 2 <==>
              || n == "Connection" || n == "Keep-Alive" || n == "Proxy-Authenticate" || n == "Proxy-Authorization"
              || n == "TE" || n == "Trailers" || n == "Transfer-Encoding" || n == "Upgrade"
    ensures Class(n) == 0 || Class(n) == 1 || Class(n) == 2
  {
    assert |"Server"| == 6;
    assert "Server"[0] == 'S';
  }

  /** On distinct names the comparator is the promised order, and that order is strict and total. */
  lemma LessIsBefore(a: string, b: string)
    ensures a != b ==> (Less(a, b) <==> Before(a, b)) && (Less(a, b) <==> !Less(b, a))
    ensures !Before(a, a)
  {
    BelowIrreflexive(a);
    if a != b {
      BelowTotal(a, b);
    }
  }

  lemma BeforeTransitive(a: string, b: string, c: string)
    requires Before(a, b) && Before(b, c)
    ensures Before(a, c)
  {
    if Class(a) == Class(b) == Class(c) {
      BelowTransitive(a, b, c);
    }
  }

  /** The comparator is irreflexive for every name but one. */
  lemma OnlyServerPrecedesItself(n: string)
    ensures Less(n, n) <==> n == "Server"
  {
    BelowIrreflexive(n);
  }

  ghost predicate Distinct(xs: seq<string>) {
    forall i, j :: 0 <= i < j < |xs| ==> xs[i] != xs[j]
  }

  /** What sort.Sort guarantees. */
  ghost predicate Sorted(xs: seq<string>) {
    forall i, j :: 0 <= i < j < |xs| ==> !Less(xs[j], xs[i])
  }

  ghost predicate SameNames(xs: seq<string>, ys: seq<string>) {
    forall n :: n in xs <==> n in ys
  }

  /** A sorted list of distinct names is in the promised order throughout. */
  lemma PrintedInOrder(xs: seq<string>)
    requires Distinct(xs)
    ensures Sorted(xs) <==> forall i, j :: 0 <= i < j < |xs| ==> Before(xs[i], xs[j])
  {
    forall i, j | 0 <= i < j < |xs| ensures Less(xs[j], xs[i]) <==> !Before(xs[i], xs[j]) {
      LessIsBefore(xs[i], xs[j]);
      LessIsBefore(xs[j], xs[i]);
    }
  }

  lemma HeadIsLeast(xs: seq<string>, n: string)
    requires Distinct(xs) && Sorted(xs) && n in xs
    ensures n == xs[0] || Before(xs[0], n)
  {
    PrintedInOrder(xs);
  }

  lemma TailKeeps(xs: seq<string>)
    requires Distinct(xs) && Sorted(xs) && xs != []
    ensures Distinct(xs[1..]) && Sorted(xs[1..])
    ensures forall n :: n in xs[1..] <==> n in xs && n != xs[0]
  {
    forall n ensures n in xs[1..] <==> n in xs && n != xs[0] {
      if n in xs && n != xs[0] {
        var i :| 0 <= i < |xs| && xs[i] == n;
        assert xs[1..][i - 1] == n;
      }
      if n in xs[1..] {
        var i :| 0 <= i < |xs| - 1 && xs[1..][i] == n;
        assert xs[i + 1] == n;
      }
    }
  }

  lemma HasAName(ys: seq<string>)
    ensures ys != [] ==> exists n :: n in ys
  {
    assert ys != [] ==> ys[0] in ys;
  }

  /**
   Any two sorted arrangements of the same distinct names are equal: the printout does not depend on the
   order in which the header map was iterated, nor on the sorting algorithm.
   */
  lemma {:induction false} OutputIsDetermined(xs: seq<string>, ys: seq<string>)
    requires Distinct(xs) && Distinct(ys) && Sorted(xs) && Sorted(ys) && SameNames(xs, ys)
    ensures xs == ys
    decreases |xs|
  {
    if xs == [] {
      HasAName(ys);
    } else {
      assert xs[0] in xs && xs[0] in ys;
      assert ys[0] in ys && ys[0] in xs;
      HeadIsLeast(xs, ys[0]);
      HeadIsLeast(ys, xs[0]);
      LessIsBefore(xs[0], ys[0]);
      LessIsBefore(ys[0], xs[0]);
      TailKeeps(xs);
      TailKeeps(ys);
      OutputIsDetermined(xs[1..], ys[1..]);
      assert xs == [xs[0]] + xs[1..] && ys == [ys[0]] + ys[1..];
    }
  }
}
