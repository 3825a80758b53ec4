/** Task stacks: mapped from the kernel with a guard page at the end they grow towards, and kept in a
    small cache once freed. The kernel's part is the set of regions it has mapped. */
module Stacks {
  import opened Runs

  const CACHE := 32

  /** What is handed out, and what the kernel maps for it. */
  datatype Stack = Stack(usable: int, size: nat)
  datatype Region = Region(base: int, length: nat)

  /** The region of a stack: with a guard, it begins a page below what is handed out. */
  function RegionOf(page: nat, guard: bool, s: Stack): Region {
    if guard then Region(s.usable - page, s.size + page) else Region(s.usable, s.size)
  }

  ghost function Regions(page: nat, guard: bool, all: set<Stack>): set<Region> {
    set s | s in all :: RegionOf(page, guard, s)
  }

  /** Neither has a byte of the other. */
  predicate Clear(r: Region, r': Region) {
    r.base + r.length <= r'.base || r'.base + r'.length <= r.base
  }

  predicate Covers(r: Region, at: int) {
    r.base <= at < r.base + r.length
  }

  lemma ClearMeans(r: Region, r': Region)
    requires r.length > 0 && r'.length > 0
    ensures Clear(r, r') <==> forall at :: Covers(r, at) ==> !Covers(r', at)
  {
    if !Clear(r, r') {
      var at := if r.base <= r'.base then r'.base else r.base;
      assert Covers(r, at) && Covers(r', at);
    }
  }

  /** No two of them overlap, their guards included, and none is empty. */
  ghost predicate Disjoint(page: nat, guard: bool, all: set<Stack>) {
    && (forall s :: s in all ==> RegionOf(page, guard, s).length > 0)
    && forall s, s' :: s in all && s' in all && s != s' ==> Clear(RegionOf(page, guard, s), RegionOf(page, guard, s'))
  }

  /** What the kernel may map beside what it has mapped. */
  ghost predicate Mappable(mapped: set<Region>, r: Region) {
    r.length > 0 && forall r' :: r' in mapped ==> Clear(r, r')
  }

  lemma RegionsWith(page: nat, guard: bool, all: set<Stack>, s: Stack)
    requires Disjoint(page, guard, all) && Mappable(Regions(page, guard, all), RegionOf(page, guard, s))
    ensures Disjoint(page, guard, all + {s}) && s !in all && RegionOf(page, guard, s) !in Regions(page, guard, all)
    ensures Regions(page, guard, all + {s}) == Regions(page, guard, all) + {RegionOf(page, guard, s)}
  {
    forall x | x in all ensures Clear(RegionOf(page, guard, s), RegionOf(page, guard, x)) {
      assert RegionOf(page, guard, x) in Regions(page, guard, all);
    }
  }

  lemma RegionsWithout(page: nat, guard: bool, all: set<Stack>, s: Stack)
    requires Disjoint(page, guard, all) && s in all
    ensures Disjoint(page, guard, all - {s}) && RegionOf(page, guard, s) in Regions(page, guard, all)
    ensures Regions(page, guard, all - {s}) == Regions(page, guard, all) - {RegionOf(page, guard, s)}
  {
    forall x | x in all && x != s ensures RegionOf(page, guard, x) != RegionOf(page, guard, s) {
    }
  }

  class StackCache {
    const page: nat
    var guard: bool
    const cache: array<int>
    var cached: nat
    var cachedSize: nat

    // What the kernel has mapped, the stacks handed out and not yet given back, and those kept.
    ghost var mapped: set<Region>
    ghost var out: set<Stack>
    ghost var kept: seq<Stack>

    /** Every stack there is: no two regions overlap, and what is mapped is those regions. */
    ghost predicate Accounted()
      reads `guard, `out, `kept, `mapped
    {
      && Disjoint(page, guard, out + Elements(kept)) && mapped == Regions(page, guard, out + Elements(kept))
      && (forall i, j :: 0 <= i < j < |kept| ==> kept[i] != kept[j]) && out !! Elements(kept)
    }

    ghost predicate Cached()
      reads `cached, `cachedSize, `kept, cache
    {
      && cached == |kept| <= cache.Length == CACHE
      && forall i :: 0 <= i < |kept| ==> kept[i] == Stack(cache[i], cachedSize)
    }

    ghost predicate Valid()
      reads this, cache
    {
      Cached() && Accounted()
    }

    constructor (page: nat)
      ensures Valid() && out == {} && mapped == {} && guard && fresh(cache) && this.page == page
    {
      this.page := page;
      guard, cached, cachedSize := true, 0, 0;
      cache := new int[CACHE](_ => 0);
      mapped, out, kept := {}, {}, [];
    }

    /** The kernel takes a region back: one it has mapped, just as it mapped it. */
    method Munmap(r: Region)
      requires r in mapped
      modifies `mapped
      ensures mapped == old(mapped) - {r}
    {
      mapped := mapped - {r};
    }

    /** The stack kept last is handed out again. */
    method Reuse() returns (usable: int)
      requires Valid() && cached > 0
      modifies `cached, `out, `kept
      ensures Valid() && out == old(out) + {Stack(usable, cachedSize)} && Stack(usable, cachedSize) !in old(out)
      ensures old(kept) == kept + [Stack(usable, cachedSize)]
    {
      cached := cached - 1;
      usable := cache[cached];
      ElementsLast(kept);
      out := out + {kept[cached]};
      assert out + Elements(kept[..cached]) == old(out + Elements(kept));
      kept := kept[..cached];
    }

    /** The region that a stack of `size` bytes would have, mapped at `at`. */
    function Mapping(at: int, size: nat): Region
      reads `guard
    {
      Region(at, if guard then size + page else size)
    }

    /** A stack of `size` bytes. `at` is where the kernel maps it, if it does, which overlaps nothing
        mapped yet; `opens` is whether it then makes it usable above the guard. */
    method Alloc(size: nat, at: Option<int>, opens: bool) returns (usable: Option<int>)
      requires Valid() && (at.Some? ==> Mappable(mapped, Mapping(at.value, size)))
      modifies `cached, `mapped, `out, `kept
      ensures Valid()
      ensures usable == None <==> !(old(cached) > 0 && cachedSize == size) && (at == None || (guard && !opens))
      ensures usable == None ==> out == old(out) && mapped == old(mapped) && kept == old(kept)
      ensures usable.Some? ==> out == old(out) + {Stack(usable.value, size)} && Stack(usable.value, size) !in old(out)
      ensures old(cached) > 0 && cachedSize == size ==> usable.Some? && mapped == old(mapped) && old(kept) == kept + [Stack(usable.value, size)]
      ensures mapped == old(mapped) || (at.Some? && mapped == old(mapped) + {Mapping(at.value, size)})
    {
      if cached > 0 && cachedSize == size {
        var again := Reuse();
        return Some(again);
      }
      if at == None { return None; }
      var low := if guard then page else 0;
      RegionsWith(page, guard, out + Elements(kept), Stack(at.value + low, size));
      mapped := mapped + {Region(at.value, size + low)};
      if guard && !opens {
        Munmap(Region(at.value, size + low));
        assert mapped == old(mapped);
        return None;
      }
      assert out + {Stack(at.value + low, size)} + Elements(kept) == out + Elements(kept) + {Stack(at.value + low, size)};
      out := out + {Stack(at.value + low, size)};
      return Some(at.value + low);
    }

    /** The kernel takes back the whole region of a stack, as guard pages are set now. */
    method Unmap(s: Stack)
      requires Valid() && s in out
      modifies `mapped, `out
      ensures Valid() && out == old(out) - {s}
      ensures mapped == old(mapped) - {RegionOf(page, guard, s)} && RegionOf(page, guard, s) in old(mapped)
    {
      RegionsWithout(page, guard, out + Elements(kept), s);
      if guard { Munmap(Region(s.usable - page, s.size + page)); } else { Munmap(Region(s.usable, s.size)); }
      assert (out - {s}) + Elements(kept) == (out + Elements(kept)) - {s};
      out := out - {s};
    }

    /** A freed stack is kept, if there is room for one of its size, and unmapped if not. */
    method Free(s: Stack)
      requires Valid() && s in out
      modifies `cached, `cachedSize, `mapped, `out, `kept, cache
      ensures Valid() && out == old(out) - {s}
      ensures if old(cached) < CACHE && (old(cached) == 0 || old(cachedSize) == s.size)
              then mapped == old(mapped) && kept == old(kept) + [s] && cachedSize == s.size
              else mapped == old(mapped) - {RegionOf(page, guard, s)} && kept == old(kept)
    {
      if cached < CACHE && (cached == 0 || cachedSize == s.size) {
        cachedSize := s.size;
        cache[cached] := s.usable;
        cached := cached + 1;
        ElementsMore(kept, s);
        assert (out - {s}) + Elements(kept + [s]) == out + Elements(kept);
        out := out - {s};
        kept := kept + [s];
        return;
      }
      Unmap(s);
    }

    /** Every stack in the cache straight back to the kernel. */
    method Flush()
      requires Valid()
      modifies `cached, `mapped, `kept
      ensures Valid() && cached == 0 && mapped == Regions(page, guard, out)
    {
      while cached > 0
        invariant Valid()
      {
        ghost var last := kept[cached - 1];
        RegionsWithout(page, guard, out + Elements(kept), last);
        ElementsLast(kept);
        assert out + Elements(kept[..cached - 1]) == (out + Elements(kept)) - {last};
        cached := cached - 1;
        Munmap(if guard then Region(cache[cached] - page, cachedSize + page) else Region(cache[cached], cachedSize));
        kept := kept[..cached];
      }
      assert out + Elements([]) == out;
    }

    /** Guard pages on or off: what is cached goes back first. What is handed out stays as it was
        mapped, so all is well after it exactly if there is no such stack, or nothing was switched. */
    method SetGuard(enabled: bool)
      requires Valid() && page > 0
      modifies `cached, `mapped, `guard, `kept
      ensures guard == enabled && (enabled == old(guard) ==> mapped == old(mapped) && cached == old(cached))
      ensures enabled != old(guard) ==> cached == 0 && mapped == Regions(page, old(guard), out)
      ensures Valid() <==> enabled == old(guard) || out == {}
    {
      if enabled == guard { return; }
      Flush();
      guard := enabled;
      assert out + Elements(kept) == out;
      RegionsDiffer(page, out);
    }
  }

  /** A stack is handed out and guard pages are switched: it is mapped as it was, and giving it back
      would unmap another region, one the kernel has not mapped. Switched off that leaves the guard
      page behind; switched on it takes in a page below that was never the stack's. */
  method SwitchesUnderStack(page: nat, size: nat, guarded: bool, at: int) returns (c: StackCache, s: Stack)
    requires page > 0 && size > 0
    ensures fresh(c) && c.page == page && c.guard == !guarded && c.out == {s} && !c.Valid()
    ensures c.mapped == {RegionOf(page, guarded, s)} && RegionOf(page, c.guard, s) !in c.mapped
    ensures RegionOf(page, guarded, s) == Region(at, if guarded then size + page else size)
    ensures RegionOf(page, c.guard, s) == if guarded then Region(at + page, size) else Region(at - page, size + page)
  {
    c := new StackCache(page);
    c.SetGuard(guarded);
    assert c.mapped == {} by { assert Regions(page, true, {}) == {}; }
    var usable := c.Alloc(size, Some(at), true);
    s := Stack(usable.value, size);
    assert RegionOf(page, guarded, s) in Regions(page, guarded, c.out + Elements(c.kept));
    c.SetGuard(!guarded);
  }

  /** With a guard no set of stacks has the regions it has without. */
  lemma RegionsDiffer(page: nat, all: set<Stack>)
    requires page > 0
    ensures Regions(page, true, all) == Regions(page, false, all) <==> all == {}
  {
    if all != {} {
      var s := Lowest(all);
      assert RegionOf(page, true, s) in Regions(page, true, all);
      assert RegionOf(page, true, s) !in Regions(page, false, all);
    }
  }

  lemma {:induction false} Lowest(all: set<Stack>) returns (s: Stack)
    requires all != {}
    ensures s in all && forall x :: x in all ==> s.usable <= x.usable
    decreases |all|
  {
    s :| s in all;
    if all != {s} {
      var rest := all - {s};
      var low := Lowest(rest);
      if low.usable < s.usable { s := low; }
    }
  }

  ghost function Elements(q: seq<Stack>): set<Stack> {
    set s | s in q
  }

  lemma ElementsMore(q: seq<Stack>, s: Stack)
    ensures Elements(q + [s]) == Elements(q) + {s}
  {
  }

  lemma ElementsLast(q: seq<Stack>)
    requires q != [] && forall i, j :: 0 <= i < j < |q| ==> q[i] != q[j]
    ensures var n := |q| - 1; q[n] in Elements(q) && Elements(q[..n]) == Elements(q) - {q[n]}
  {
    var n := |q| - 1;
    assert q == q[..n] + [q[n]];
  }
}
