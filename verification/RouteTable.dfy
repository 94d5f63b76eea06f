/** The longest-prefix-match table, and the routing table built from includes and excludes. */
module RouteTables {
  import opened Basics
  import opened Bits
  import opened Dyadic
  import opened Cidr

  /** Keep the top `len` bits of a `bits`-bit address. */
  function MaskAddr(bits: nat, addr: nat, len: nat): nat
    requires len <= bits
  {
    if len == 0 then 0 else Shl(Shr(addr, bits - len), bits - len)
  }

  lemma {:induction false} ShrSmall(x: nat, k: nat)
    requires x < Pow2(k)
    ensures Shr(x, k) == 0
  {
    if k == 0 {
    } else {
      ShrSmall(x / 2, k - 1);
    }
  }

  /** An address matches a prefix exactly when the prefix contains it. */
  lemma MaskMatches(bits: nat, n: Net, x: nat)
    requires Valid(bits, n) && x < Pow2(bits)
    ensures MaskAddr(bits, x, n.len) == MaskAddr(bits, n.addr, n.len) <==> Contains(bits, n, x)
  {
    var k := bits - n.len;
    BlockPoints(n.addr, k, x);
    ShlAligned(Shr(x, k), k);
    ShlAligned(Shr(n.addr, k), k);
    if n.len == 0 {
      ShrSmall(x, bits);
      ShrSmall(n.addr, bits);
    }
  }

  // ---------------------------------------------------------------------------
  // Reference: the routes in order of insertion
  // ---------------------------------------------------------------------------

  datatype Route = Route(net: Net, dest: Key)

  predicate Matches(bits: nat, r: Route, addr: nat)
    requires r.net.len <= bits
  {
    MaskAddr(bits, addr, r.net.len) == MaskAddr(bits, r.net.addr, r.net.len)
  }

  /** Destination of the last route inserted for a prefix. */
  ghost function Latest(bits: nat, routes: seq<Route>, len: nat, key: nat): Option<Key>
    requires forall r :: r in routes ==> r.net.len <= bits
  {
    if routes == [] then None
    else
      var r := Last(routes);
      if r.net.len == len && MaskAddr(bits, r.net.addr, len) == key then Some(r.dest)
      else Latest(bits, routes[..|routes| - 1], len, key)
  }

  /** `routes[i]` is the answer for `addr`: no matching route is longer, or equally long and later. */
  ghost predicate IsAnswer(bits: nat, routes: seq<Route>, addr: nat, i: nat)
    requires forall r :: r in routes ==> r.net.len <= bits
  {
    && i < |routes| && Matches(bits, routes[i], addr)
    && forall j :: 0 <= j < |routes| && Matches(bits, routes[j], addr) ==>
         routes[j].net.len < routes[i].net.len || (routes[j].net.len == routes[i].net.len && j <= i)
  }

  lemma {:induction false} LatestIs(bits: nat, routes: seq<Route>, len: nat, key: nat)
    requires forall r :: r in routes ==> r.net.len <= bits
    ensures Latest(bits, routes, len, key).None? <==>
              forall j :: 0 <= j < |routes| && routes[j].net.len == len ==> MaskAddr(bits, routes[j].net.addr, len) != key
    ensures Latest(bits, routes, len, key).Some? ==>
              exists i: nat :: IsLatest(bits, routes, len, key, i) && routes[i].dest == Latest(bits, routes, len, key).value
  {
    if routes == [] {
    } else {
      var init := routes[..|routes| - 1];
      LatestIs(bits, init, len, key);
      var r := Last(routes);
      if r.net.len == len && MaskAddr(bits, r.net.addr, len) == key {
        assert IsLatest(bits, routes, len, key, |routes| - 1);
      } else if Latest(bits, init, len, key).Some? {
        var i: nat :| IsLatest(bits, init, len, key, i) && init[i].dest == Latest(bits, init, len, key).value;
        assert IsLatest(bits, routes, len, key, i);
      }
    }
  }

  ghost predicate IsLatest(bits: nat, routes: seq<Route>, len: nat, key: nat, i: nat)
    requires forall r :: r in routes ==> r.net.len <= bits
  {
    && i < |routes| && routes[i].net.len == len && MaskAddr(bits, routes[i].net.addr, len) == key
    && forall j :: i < j < |routes| && routes[j].net.len == len ==> MaskAddr(bits, routes[j].net.addr, len) != key
  }

  /** The distinct prefixes among the routes. */
  ghost function Prefixes(bits: nat, routes: seq<Route>): set<(nat, nat)>
    requires forall r :: r in routes ==> r.net.len <= bits
  {
    set r | r in routes :: (r.net.len, MaskAddr(bits, r.net.addr, r.net.len))
  }

  // ---------------------------------------------------------------------------
  // The table
  // ---------------------------------------------------------------------------

  class RouteTable {
    const bits: nat
    /** For each prefix length, destinations by masked address. */
    var levels: map<nat, map<nat, Key>>
    var len: nat
    ghost var routes: seq<Route>

    ghost predicate Known()
      reads this
    {
      forall r :: r in routes ==> r.net.len <= bits
    }

    /** The levels answer as the insertion history does, and every prefix is counted once. */
    ghost predicate Valid()
      reads this
    {
      && Known()
      && (forall l, k :: Find(levels, l, k) == Latest(bits, routes, l, k))
      && len == |Prefixes(bits, routes)|
    }

    constructor (bits: nat)
      ensures this.bits == bits && routes == [] && len == 0 && Valid()
    {
      this.bits := bits;
      levels := map[];
      len := 0;
      routes := [];
    }

    method Insert(net: Net, dest: Key) returns (isNew: bool)
      requires Valid() && net.len <= bits
      modifies this
      ensures Valid()
      ensures routes == old(routes) + [Route(net, dest)]
      ensures isNew <==> (net.len, MaskAddr(bits, net.addr, net.len)) !in Prefixes(bits, old(routes))
    {
      var key := MaskAddr(bits, net.addr, net.len);
      var level := if net.len in levels then levels[net.len] else map[];
      isNew := key !in level;
      levels := levels[net.len := level[key := dest]];
      routes := routes + [Route(net, dest)];
      InsertCounts(bits, old(routes), net, dest);
      InsertAnswers(bits, old(routes), old(levels), net, dest);
      if isNew {
        len := len + 1;
      }
    }

    /** Probe the levels from the longest prefix down. */
    method Get(addr: nat) returns (r: Option<Key>)
      requires Valid()
      ensures r == None ==> forall i :: 0 <= i < |routes| ==> !Matches(bits, routes[i], addr)
      ensures r.Some? ==> exists i: nat :: IsAnswer(bits, routes, addr, i) && routes[i].dest == r.value
    {
      var l := bits + 1;
      while l > 0
        invariant l <= bits + 1
        invariant forall i :: 0 <= i < |routes| && routes[i].net.len >= l ==> !Matches(bits, routes[i], addr)
      {
        l := l - 1;
        var key := MaskAddr(bits, addr, l);
        LatestIs(bits, routes, l, key);
        assert Find(levels, l, key) == Latest(bits, routes, l, key);
        if l in levels && key in levels[l] {
          r := Some(levels[l][key]);
          ghost var i: nat :| IsLatest(bits, routes, l, key, i) && routes[i].dest == r.value;
          assert IsAnswer(bits, routes, addr, i);
          return;
        }
      }
      r := None;
    }
  }

  ghost function Find(levels: map<nat, map<nat, Key>>, l: nat, k: nat): Option<Key> {
    if l in levels && k in levels[l] then Some(levels[l][k]) else None
  }

  lemma InsertAnswers(bits: nat, routes: seq<Route>, levels: map<nat, map<nat, Key>>, net: Net, dest: Key)
    requires (forall r :: r in routes ==> r.net.len <= bits) && net.len <= bits
    requires forall l, k :: Find(levels, l, k) == Latest(bits, routes, l, k)
    ensures var key := MaskAddr(bits, net.addr, net.len);
            var level := if net.len in levels then levels[net.len] else map[];
            var levels' := levels[net.len := level[key := dest]];
            && (key in level <==> Latest(bits, routes, net.len, key).Some?)
            && forall l, k :: Find(levels', l, k) == Latest(bits, routes + [Route(net, dest)], l, k)
  {
    var key := MaskAddr(bits, net.addr, net.len);
    assert Find(levels, net.len, key) == Latest(bits, routes, net.len, key);
    var routes' := routes + [Route(net, dest)];
    var level := if net.len in levels then levels[net.len] else map[];
    var levels' := levels[net.len := level[key := dest]];
    forall l, k
      ensures Find(levels', l, k) == Latest(bits, routes', l, k)
    {
      assert routes'[..|routes'| - 1] == routes;
      assert Find(levels, l, k) == Latest(bits, routes, l, k);
    }
  }

  lemma InsertCounts(bits: nat, routes: seq<Route>, net: Net, dest: Key)
    requires (forall r :: r in routes ==> r.net.len <= bits) && net.len <= bits
    ensures var p := (net.len, MaskAddr(bits, net.addr, net.len));
            && Prefixes(bits, routes + [Route(net, dest)]) == Prefixes(bits, routes) + {p}
            && (p in Prefixes(bits, routes) <==> Latest(bits, routes, net.len, p.1).Some?)
            && |Prefixes(bits, routes + [Route(net, dest)])| == |Prefixes(bits, routes)| + (if p in Prefixes(bits, routes) then 0 else 1)
  {
    var p := (net.len, MaskAddr(bits, net.addr, net.len));
    LatestIs(bits, routes, net.len, p.1);
    if p in Prefixes(bits, routes) {
      var r :| r in routes && (r.net.len, MaskAddr(bits, r.net.addr, r.net.len)) == p;
      var j :| 0 <= j < |routes| && routes[j] == r;
    }
  }

  // ---------------------------------------------------------------------------
  // From includes and excludes to a table
  // ---------------------------------------------------------------------------

  /** `out` holds exactly the addresses of `includes` that are not excluded. */
  ghost predicate Expands(bits: nat, out: seq<Net>, includes: seq<Net>, excludes: seq<Net>) {
    && (forall n :: n in out ==> Cidr.Valid(bits, n))
    && (forall x :: 0 <= x < Pow2(bits) ==>
          (Covers(bits, out, x) <==> Covers(bits, includes, x) && !Covers(bits, excludes, x)))
  }

  lemma ExpandsMore(bits: nat, out: seq<Net>, includes: seq<Net>, excludes: seq<Net>, inc: Net, ex: seq<Range>, more: seq<Net>)
    requires Expands(bits, out, includes, excludes)
    requires Carves(bits, more, Remainder(bits, inc, ex), Pow2(bits))
    requires forall x :: InRanges(ex, x) <==> Covers(bits, excludes, x)
    ensures Expands(bits, out + more, includes + [inc], excludes)
  {
    forall x | 0 <= x < Pow2(bits)
      ensures Covers(bits, out + more, x) <==> Covers(bits, includes + [inc], x) && !Covers(bits, excludes, x)
    {
      CoversConcat(bits, out, more, x);
      CoversSnoc(bits, includes, inc, x);
      assert Remainder(bits, inc, ex)(x) <==> Contains(bits, inc, x) && !InRanges(ex, x);
    }
  }

  /** What an include keeps. */
  ghost function Kept(bits: nat, inc: Net, excludes: seq<Net>): nat -> bool {
    (x: nat) => Contains(bits, inc, x) && !Covers(bits, excludes, x)
  }

  /** `n` is one of the fewest prefixes for what some include keeps. */
  ghost predicate Emitted(bits: nat, includes: seq<Net>, excludes: seq<Net>, n: Net) {
    exists i :: 0 <= i < |includes| && Maximal(bits, n, Kept(bits, includes[i], excludes))
  }

  lemma EmittedMore(bits: nat, includes: seq<Net>, excludes: seq<Net>, inc: Net, ex: seq<Range>, more: seq<Net>, n: Net)
    requires Carves(bits, more, Remainder(bits, inc, ex), Pow2(bits))
    requires forall x :: InRanges(ex, x) <==> Covers(bits, excludes, x)
    ensures Emitted(bits, includes + [inc], excludes, n) <==> Emitted(bits, includes, excludes, n) || n in more
  {
    var all := includes + [inc];
    CarvedIffMaximal(bits, more, Remainder(bits, inc, ex), n);
    MaximalSame(bits, n, Remainder(bits, inc, ex), Kept(bits, inc, excludes));
    if Emitted(bits, includes, excludes, n) {
      var i :| 0 <= i < |includes| && Maximal(bits, n, Kept(bits, includes[i], excludes));
      assert all[i] == includes[i];
    }
    if n in more {
      assert all[|includes|] == inc;
    }
  }

  /** Expand each include against the merged excludes. */
  method Expand(bits: nat, includes: seq<Net>, excludes: seq<Net>) returns (out: seq<Net>)
    requires forall n :: n in includes || n in excludes ==> Cidr.Valid(bits, n)
    ensures Expands(bits, out, includes, excludes)
    ensures forall n :: n in out <==> Emitted(bits, includes, excludes, n)
  {
    assert forall i :: 0 <= i < |excludes| ==> excludes[i] in excludes;
    var ex := MergeExcludes(bits, excludes);
    out := [];
    for i := 0 to |includes|
      invariant Expands(bits, out, includes[..i], excludes)
      invariant forall n :: n in out <==> Emitted(bits, includes[..i], excludes, n)
    {
      var more := SubtractMany(bits, includes[i], ex);
      ExpandsMore(bits, out, includes[..i], excludes, includes[i], ex, more);
      forall n
        ensures n in out + more <==> Emitted(bits, includes[..i] + [includes[i]], excludes, n)
      {
        EmittedMore(bits, includes[..i], excludes, includes[i], ex, more, n);
      }
      assert includes[..i + 1] == includes[..i] + [includes[i]];
      out := out + more;
    }
    assert includes[..|includes|] == includes;
  }

  lemma CoversConcat(bits: nat, a: seq<Net>, b: seq<Net>, x: nat)
    ensures Covers(bits, a + b, x) <==> Covers(bits, a, x) || Covers(bits, b, x)
  {
    var all := a + b;
    if Covers(bits, a, x) {
      var i :| 0 <= i < |a| && Contains(bits, a[i], x);
      assert Contains(bits, all[i], x);
    }
    if Covers(bits, b, x) {
      var i :| 0 <= i < |b| && Contains(bits, b[i], x);
      assert Contains(bits, all[|a| + i], x);
    }
  }

  /** A configuration is refused when one of its prefixes starts inside the overlay's own address space;
      `overlay` tells which addresses do (none, for IPv4). */
  ghost predicate Refused(bits: nat, includes: seq<Net>, excludes: seq<Net>, overlay: nat -> bool) {
    exists n: Net :: Emitted(bits, includes, excludes, n) && overlay(n.addr)
  }

  /** A configuration that routes no overlay address is not refused. */
  lemma NotRefused(bits: nat, includes: seq<Net>, excludes: seq<Net>, overlay: nat -> bool)
    requires forall x :: Covers(bits, includes, x) && !Covers(bits, excludes, x) ==> !overlay(x)
    ensures !Refused(bits, includes, excludes, overlay)
  {
    forall n | Emitted(bits, includes, excludes, n)
      ensures !overlay(n.addr)
    {
      var i :| 0 <= i < |includes| && Maximal(bits, n, Kept(bits, includes[i], excludes));
      assert Contains(bits, n, n.addr);
      assert Contains(bits, includes[i], n.addr);
    }
  }

  /** Insert prefixes up to the first that starts inside the overlay's address space. */
  method InsertAll(table: RouteTable, nets: seq<Net>, dest: Key, overlay: nat -> bool) returns (ok: bool)
    requires table.Valid() && table.routes == [] && forall n :: n in nets ==> n.len <= table.bits
    modifies table
    ensures table.Valid()
    ensures ok <==> forall i :: 0 <= i < |nets| ==> !overlay(nets[i].addr)
    ensures forall r :: r in table.routes ==> r.dest == dest
    ensures ok ==> |table.routes| == |nets| && forall j :: 0 <= j < |nets| ==> table.routes[j] == Route(nets[j], dest)
  {
    for i := 0 to |nets|
      invariant table.Valid() && |table.routes| == i && forall j :: 0 <= j < i ==> table.routes[j] == Route(nets[j], dest)
      invariant forall j :: 0 <= j < i ==> !overlay(nets[j].addr)
    {
      assert nets[i] in nets;
      if overlay(nets[i].addr) {
        return false;
      }
      var isNew := table.Insert(nets[i], dest);
    }
    ok := true;
  }

  /** The table for one destination, unless the configuration is refused. */
  method BuildTable(bits: nat, includes: seq<Net>, excludes: seq<Net>, dest: Key, overlay: nat -> bool)
    returns (table: RouteTable, ok: bool)
    requires forall n :: n in includes || n in excludes ==> Cidr.Valid(bits, n)
    ensures fresh(table) && table.Valid() && table.bits == bits
    ensures ok <==> !Refused(bits, includes, excludes, overlay)
    ensures ok ==> forall x :: 0 <= x < Pow2(bits) ==>
              (Routed(bits, table.routes, x) <==> Covers(bits, includes, x) && !Covers(bits, excludes, x))
    ensures forall r :: r in table.routes ==> r.dest == dest
  {
    table := new RouteTable(bits);
    var nets := Expand(bits, includes, excludes);
    ok := InsertAll(table, nets, dest, overlay);
    if ok {
      RoutedIffKept(bits, nets, table.routes, dest, includes, excludes);
      assert forall n :: Emitted(bits, includes, excludes, n) ==> n in nets;
    } else {
      ghost var i: nat :| i < |nets| && overlay(nets[i].addr);
      assert nets[i] in nets;
    }
  }

  /** Some route matches the address. */
  ghost predicate Routed(bits: nat, routes: seq<Route>, x: nat) {
    exists i :: 0 <= i < |routes| && routes[i].net.len <= bits && Matches(bits, routes[i], x)
  }

  lemma RoutedIffCovered(bits: nat, nets: seq<Net>, routes: seq<Route>, dest: Key, x: nat)
    requires |routes| == |nets| && forall j :: 0 <= j < |nets| ==> routes[j] == Route(nets[j], dest)
    requires (forall n :: n in nets ==> Cidr.Valid(bits, n)) && x < Pow2(bits)
    ensures Routed(bits, routes, x) <==> Covers(bits, nets, x)
  {
    forall j | 0 <= j < |nets|
      ensures routes[j].net.len <= bits && (Matches(bits, routes[j], x) <==> Contains(bits, nets[j], x))
    {
      assert nets[j] in nets;
      MaskMatches(bits, nets[j], x);
    }
  }

  lemma RoutedIffKept(bits: nat, nets: seq<Net>, routes: seq<Route>, dest: Key, includes: seq<Net>, excludes: seq<Net>)
    requires |routes| == |nets| && forall j :: 0 <= j < |nets| ==> routes[j] == Route(nets[j], dest)
    requires Expands(bits, nets, includes, excludes)
    ensures forall x :: 0 <= x < Pow2(bits) ==>
              (Routed(bits, routes, x) <==> Covers(bits, includes, x) && !Covers(bits, excludes, x))
  {
    forall x | 0 <= x < Pow2(bits)
      ensures Routed(bits, routes, x) <==> Covers(bits, includes, x) && !Covers(bits, excludes, x)
    {
      RoutedIffCovered(bits, nets, routes, dest, x);
    }
  }

  /** Resolve an address; the overlay's own addresses are never routed this way. */
  method Resolve(table: RouteTable, addr: nat, overlay: nat -> bool) returns (r: Option<Key>)
    requires table.Valid()
    ensures overlay(addr) ==> r == None
    ensures !overlay(addr) ==> (r.Some? <==> Routed(table.bits, table.routes, addr))
    ensures r.Some? ==> exists i: nat :: IsAnswer(table.bits, table.routes, addr, i) && table.routes[i].dest == r.value
  {
    if overlay(addr) {
      return None;
    }
    r := table.Get(addr);
    if r.Some? {
      ghost var i: nat :| IsAnswer(table.bits, table.routes, addr, i);
      assert table.routes[i] in table.routes;
    }
  }

  /** From configuration to answer: unless the configuration is refused, an address resolves to the destination
      exactly when it is included, not excluded and not the overlay's own. */
  method ResolveConfigured(bits: nat, includes: seq<Net>, excludes: seq<Net>, dest: Key, overlay: nat -> bool, addr: nat)
    returns (r: Option<Key>, ok: bool)
    requires (forall n :: n in includes || n in excludes ==> Cidr.Valid(bits, n)) && addr < Pow2(bits)
    ensures ok <==> !Refused(bits, includes, excludes, overlay)
    ensures ok ==> (r == if Covers(bits, includes, addr) && !Covers(bits, excludes, addr) && !overlay(addr) then Some(dest) else None)
  {
    var table;
    table, ok := BuildTable(bits, includes, excludes, dest, overlay);
    r := Resolve(table, addr, overlay);
    if r.Some? {
      ghost var i: nat :| IsAnswer(table.bits, table.routes, addr, i) && table.routes[i].dest == r.value;
      assert table.routes[i] in table.routes;
    }
  }
}
