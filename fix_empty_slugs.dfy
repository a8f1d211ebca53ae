/**
 * The `fix_empty_slugs` management command: every product whose slug is the empty
 * string gets the first free slug derived from its name, one product at a time, each
 * product checked against the table as the earlier fixes have left it.
 */
module FixEmptySlugs {
  import opened Wrappers
  import opened Slugs
  import opened Products

  /**
   * The query set `Product.objects.filter(slug="")`, as a set of ids: a reference definition,
   * whose ensures only spell out membership; the command's contract says it ends empty.
   */
  function EmptySlugIds(rows: map<ProductId, Product>): (r: set<ProductId>)
    ensures forall k :: k in r <==> k in rows && rows[k].slug == ""
  {
    set k | k in rows && rows[k].slug == ""
  }

  /**
   * The command's base slug: the slugified name or, when that is empty, `product-<id>`.
   * Unlike `Product.save` the command always has an id, so it never falls back to `product`.
   */
  function FixBase(name: string, id: ProductId): (base: string)
    ensures base != ""
    ensures Slugify(name) != "" ==> base == Slugify(name)
    ensures Slugify(name) == "" ==> base == "product-" + NatToString(id)
  {
    var slug := Slugify(name);
    if slug != "" then slug else "product-" + NatToString(id)
  }

  /**
   * The slug one turn of the command gives row id, against the table as the earlier
   * turns left it: the first candidate of its base that no other row holds.
   */
  function FixSlug(rows: map<ProductId, Product>, id: ProductId): (slug: string)
    requires id in rows
    ensures slug != "" && slug !in OtherSlugs(rows, Some(id))
    ensures exists k: nat :: slug == Candidate(FixBase(rows[id].name, id), k)
              && forall j :: 0 <= j < k ==> Candidate(FixBase(rows[id].name, id), j) in OtherSlugs(rows, Some(id))
  {
    var base := FixBase(rows[id].name, id);
    var k := FirstFreeSuffix(base, OtherSlugs(rows, Some(id)));
    Candidate(base, k)
  }

  /**
   * The table after the command, as a definition: the queued rows are fixed one after
   * the other in queue order, each against the table the earlier turns produced.
   * Only slugs change, and only those of queued rows.
   */
  function FixAll(rows: map<ProductId, Product>, queue: seq<ProductId>): (r: map<ProductId, Product>)
    ensures SlugsOnlyChanged(rows, r)
    ensures forall k :: k in rows && k !in queue ==> r[k].slug == rows[k].slug
    decreases |queue|
  {
    if queue == [] then rows
    else
      var done := queue[..|queue| - 1];
      var before := FixAll(rows, done);
      TurnKeeps(rows, before, done, queue[|queue| - 1]);
      assert queue == done + [queue[|queue| - 1]];
      FixTurn(before, queue[|queue| - 1])
  }

  /** One turn of the command on row id, when the row exists. */
  function FixTurn(rows: map<ProductId, Product>, id: ProductId): (r: map<ProductId, Product>)
    ensures SlugsOnlyChanged(rows, r)
    ensures forall k :: k in rows && k != id ==> r[k] == rows[k]
  {
    if id in rows then rows[id := rows[id].(slug := FixSlug(rows, id))] else rows
  }

  /** One turn writes only a slug, and only the slug of the row it is on. */
  lemma TurnKeeps(rows: map<ProductId, Product>, before: map<ProductId, Product>, done: seq<ProductId>, id: ProductId)
    requires SlugsOnlyChanged(rows, before)
    requires forall k :: k in rows && k !in done ==> before[k].slug == rows[k].slug
    ensures SlugsOnlyChanged(rows, FixTurn(before, id))
    ensures forall k :: k in rows && k !in done + [id] ==> FixTurn(before, id)[k].slug == rows[k].slug
  {
  }

  /** Fixing one more queued row extends the reference definition by one turn. */
  lemma FixAllStep(rows: map<ProductId, Product>, queue: seq<ProductId>, n: nat)
    requires n < |queue| && queue[n] in rows
    ensures var before := FixAll(rows, queue[..n]);
            FixAll(rows, queue[..n + 1]) == before[queue[n] := before[queue[n]].(slug := FixSlug(before, queue[n]))]
  {
    assert queue[..n + 1][..n] == queue[..n];
    assert queue[n] in FixAll(rows, queue[..n]);
  }

  /** A turn on row id writes the free candidate whose predecessors are all held. */
  lemma TurnTakesFree(rows: map<ProductId, Product>, id: ProductId, k: nat)
    requires id in rows
    requires Candidate(FixBase(rows[id].name, id), k) !in OtherSlugs(rows, Some(id))
    requires forall j :: 0 <= j < k ==> Candidate(FixBase(rows[id].name, id), j) in OtherSlugs(rows, Some(id))
    ensures FixTurn(rows, id) == rows[id := rows[id].(slug := Candidate(FixBase(rows[id].name, id), k))]
  {
    FirstFreeUnique(FixBase(rows[id].name, id), OtherSlugs(rows, Some(id)), k);
  }

  /** Two turns, in queue order. */
  lemma FixAllPair(rows: map<ProductId, Product>, a: ProductId, b: ProductId)
    ensures FixAll(rows, [a, b]) == FixTurn(FixTurn(rows, a), b)
  {
    var q := [a, b];
    assert q[..|q| - 1] == [a];
    assert FixAll(rows, q) == FixTurn(FixAll(rows, [a]), b);
    assert [a][..0] == [];
    assert FixAll(rows, [a]) == FixTurn(FixAll(rows, []), a);
  }

  /** A slug longer than `base` that no third row holds is free for b once a holds `base`. */
  lemma NotHeldAfterFirst(rows: map<ProductId, Product>, a: ProductId, b: ProductId, base: string, s: string)
    requires a in rows && a != b && |s| > |base|
    requires forall k :: k in rows && k != a && k != b ==> rows[k].slug != s
    ensures s !in OtherSlugs(rows[a := rows[a].(slug := base)], Some(b))
  {
    var afterA := rows[a := rows[a].(slug := base)];
    forall k | k in afterA && k != b ensures afterA[k].slug != s {
      if k != a {
        assert afterA[k] == rows[k];
      }
    }
  }

  /**
   * Queue order decides: of two queued rows with the same base, where no other row
   * holds `base` or `base-1`, the one fixed first gets `base` and the second `base-1`.
   */
  lemma SameBaseInQueueOrder(rows: map<ProductId, Product>, a: ProductId, b: ProductId, base: string)
    requires a in rows && b in rows && a != b
    requires rows[a].slug == "" && rows[b].slug == ""
    requires FixBase(rows[a].name, a) == base && FixBase(rows[b].name, b) == base
    requires forall k :: k in rows && k != a && k != b ==> rows[k].slug != base && rows[k].slug != Candidate(base, 1)
    ensures FixAll(rows, [a, b])[a].slug == base
    ensures FixAll(rows, [a, b])[b].slug == Candidate(base, 1)
  {
    assert Candidate(base, 0) == base;
    assert base !in OtherSlugs(rows, Some(a));
    TurnTakesFree(rows, a, 0);
    var afterA := rows[a := rows[a].(slug := base)];
    assert FixTurn(rows, a) == afterA;
    assert afterA[b] == rows[b];
    assert base in OtherSlugs(afterA, Some(b));
    var next := Candidate(base, 1);
    NotHeldAfterFirst(rows, a, b, base, next);
    TurnTakesFree(afterA, b, 1);
    var afterB := afterA[b := afterA[b].(slug := next)];
    assert FixTurn(afterA, b) == afterB;
    FixAllPair(rows, a, b);
    assert afterB[a].slug == base && afterB[b].slug == next;
  }

  /** A nonempty slug held by another row stays held when a row with an empty slug gets a slug. */
  lemma HeldStaysHeld(rows: map<ProductId, Product>, id: ProductId, newSlug: string, self: Option<ProductId>, s: string)
    requires id in rows && rows[id].slug == ""
    requires s != "" && s in OtherSlugs(rows, self)
    ensures s in OtherSlugs(rows[id := rows[id].(slug := newSlug)], self)
  {
    var k :| k in rows && Some(k) != self && rows[k].slug == s;
    assert k != id;
    assert rows[id := rows[id].(slug := newSlug)][k] == rows[k];
  }

  /** Writing a slug into row id leaves the slugs the OTHER rows hold, as seen from id, as they were. */
  lemma OtherSlugsIgnoreSelf(rows: map<ProductId, Product>, id: ProductId, x: Product)
    ensures OtherSlugs(rows[id := x], Some(id)) == OtherSlugs(rows, Some(id))
  {
    var after := rows[id := x];
    forall s | s in OtherSlugs(after, Some(id)) ensures s in OtherSlugs(rows, Some(id)) {
      var k :| k in after && Some(k) != Some(id) && after[k].slug == s;
      assert rows[k] == after[k];
    }
    forall s | s in OtherSlugs(rows, Some(id)) ensures s in OtherSlugs(after, Some(id)) {
      var k :| k in rows && Some(k) != Some(id) && rows[k].slug == s;
      assert rows[k] == after[k];
    }
  }

  /**
   * Row id holds the m-th candidate of `base`, no other row holds that slug, and every
   * earlier candidate is held by some other row.
   */
  predicate Settled(rows: map<ProductId, Product>, id: ProductId, base: string, m: nat)
  {
    base != "" && id in rows && rows[id].slug == Candidate(base, m) && rows[id].slug != ""
    && rows[id].slug !in OtherSlugs(rows, Some(id))
    && forall j :: 0 <= j < m ==> Candidate(base, j) in OtherSlugs(rows, Some(id))
  }

  /** A product fixed earlier stays settled when row id, still empty, receives a slug no other row held. */
  lemma EarlierFixKept(before: map<ProductId, Product>, id: ProductId, slug: string, other: ProductId, base: string, m: nat)
    requires id in before && before[id].slug == "" && other != id
    requires slug !in OtherSlugs(before, Some(id))
    requires Settled(before, other, base, m)
    ensures Settled(before[id := before[id].(slug := slug)], other, base, m)
  {
    var after := before[id := before[id].(slug := slug)];
    assert after[other] == before[other];
    forall k | k in after && k != other ensures after[k].slug != after[other].slug {
      if k == id {
        assert before[other].slug in OtherSlugs(before, Some(id));
      } else {
        assert after[k] == before[k];
        assert before[k].slug in OtherSlugs(before, Some(other));
      }
    }
    forall j | 0 <= j < m ensures Candidate(base, j) in OtherSlugs(after, Some(other)) {
      assert before[other].slug != "";
      if j == 0 {
        assert Candidate(base, j) == base;
      }
      HeldStaysHeld(before, id, slug, Some(other), Candidate(base, j));
    }
  }

  /** `rows` differs from `start` in slugs only. */
  predicate SlugsOnlyChanged(start: map<ProductId, Product>, rows: map<ProductId, Product>)
  {
    rows.Keys == start.Keys
    && forall k :: k in rows ==> rows[k] == start[k].(slug := rows[k].slug)
  }

  /**
   * The loop invariant after n turns: only slugs changed, the rows not yet reached keep
   * their slug, and each of the first n queued products is settled on its base and suffix.
   */
  predicate Progress(start: map<ProductId, Product>, rows: map<ProductId, Product>, queue: seq<ProductId>,
                     bases: seq<string>, n: nat, suffixes: seq<nat>)
  {
    n <= |queue| && |bases| == |queue| && |suffixes| == n && SlugsOnlyChanged(start, rows)
    && Unreached(start, rows, queue, n) && AllSettled(rows, queue, bases, suffixes, n)
  }

  /** The rows outside the first n queued ones keep their original slug. */
  predicate Unreached(start: map<ProductId, Product>, rows: map<ProductId, Product>, queue: seq<ProductId>, n: nat)
    requires n <= |queue|
  {
    forall k :: k in rows && k !in queue[..n] ==> k in start && rows[k].slug == start[k].slug
  }

  /** The first n queued products are settled. */
  predicate AllSettled(rows: map<ProductId, Product>, queue: seq<ProductId>, bases: seq<string>, suffixes: seq<nat>, n: nat)
    requires n <= |queue| && n <= |bases| && n <= |suffixes|
  {
    forall i :: 0 <= i < n ==> Settled(rows, queue[i], bases[i], suffixes[i])
  }

  /** The rows not yet reached keep their slug when the next queued row receives one. */
  lemma UnreachedKept(start: map<ProductId, Product>, before: map<ProductId, Product>, queue: seq<ProductId>, n: nat, slug: string)
    requires n < |queue| && queue[n] in before
    requires Unreached(start, before, queue, n)
    ensures Unreached(start, before[queue[n] := before[queue[n]].(slug := slug)], queue, n + 1)
  {
    assert queue[..n + 1] == queue[..n] + [queue[n]];
  }

  /** The row just fixed is settled. */
  lemma NewFixSettled(before: map<ProductId, Product>, id: ProductId, base: string, slug: string, k: nat)
    requires id in before && base != ""
    requires slug == Candidate(base, k) && slug != ""
    requires slug !in OtherSlugs(before, Some(id))
    requires forall j :: 0 <= j < k ==> Candidate(base, j) in OtherSlugs(before, Some(id))
    ensures Settled(before[id := before[id].(slug := slug)], id, base, k)
  {
    OtherSlugsIgnoreSelf(before, id, before[id].(slug := slug));
  }

  /** After one turn every product reached so far, the new one included, is settled. */
  lemma AllSettledStep(before: map<ProductId, Product>, queue: seq<ProductId>, bases: seq<string>, n: nat,
                       suffixes: seq<nat>, slug: string, k: nat)
    requires forall i, j :: 0 <= i < j < |queue| ==> queue[i] != queue[j]
    requires n < |queue| && |bases| == |queue| && |suffixes| == n && bases[n] != ""
    requires queue[n] in before && before[queue[n]].slug == ""
    requires AllSettled(before, queue, bases, suffixes, n)
    requires slug == Candidate(bases[n], k) && slug != ""
    requires slug !in OtherSlugs(before, Some(queue[n]))
    requires forall j :: 0 <= j < k ==> Candidate(bases[n], j) in OtherSlugs(before, Some(queue[n]))
    ensures AllSettled(before[queue[n] := before[queue[n]].(slug := slug)], queue, bases, suffixes + [k], n + 1)
  {
    var id := queue[n];
    var after := before[id := before[id].(slug := slug)];
    var suffixes' := suffixes + [k];
    NewFixSettled(before, id, bases[n], slug, k);
    forall i | 0 <= i < n + 1 ensures Settled(after, queue[i], bases[i], suffixes'[i]) {
      if i < n {
        EarlierFixKept(before, id, slug, queue[i], bases[i], suffixes[i]);
      }
    }
  }

  /** One turn keeps the invariant. */
  lemma ProgressStep(start: map<ProductId, Product>, before: map<ProductId, Product>, queue: seq<ProductId>,
                     bases: seq<string>, n: nat, suffixes: seq<nat>, slug: string, k: nat)
    requires forall i, j :: 0 <= i < j < |queue| ==> queue[i] != queue[j]
    requires n < |queue| && queue[n] in start && start[queue[n]].slug == ""
    requires Progress(start, before, queue, bases, n, suffixes) && bases[n] != ""
    requires slug == Candidate(bases[n], k) && slug != ""
    requires slug !in OtherSlugs(before, Some(queue[n]))
    requires forall j :: 0 <= j < k ==> Candidate(bases[n], j) in OtherSlugs(before, Some(queue[n]))
    ensures Progress(start, before[queue[n] := before[queue[n]].(slug := slug)], queue, bases, n + 1, suffixes + [k])
  {
    var id := queue[n];
    assert id !in queue[..n];
    UnreachedKept(start, before, queue, n, slug);
    AllSettledStep(before, queue, bases, n, suffixes, slug, k);
    assert SlugsOnlyChanged(start, before[id := before[id].(slug := slug)]);
  }

  /**
   * One turn of the loop: the first of `base`, `base-1`, ... that no other product
   * holds now becomes the product's slug, written back through `Product.save`, which
   * keeps a nonempty slug and finds no clash.
   */
  method FixOne(catalog: Catalog, p: Product) returns (slug: string, k: nat)
    requires catalog.Valid()
    requires p.id.Some? && p.id.value in catalog.rows && catalog.rows[p.id.value] == p && p.slug == ""
    modifies catalog
    ensures catalog.Valid()
    ensures catalog.rows == old(catalog.rows)[p.id.value := p.(slug := slug)]
    ensures slug == Candidate(FixBase(p.name, p.id.value), k) && slug != ""
    ensures slug !in OtherSlugs(old(catalog.rows), p.id)
    ensures forall j :: 0 <= j < k ==> Candidate(FixBase(p.name, p.id.value), j) in OtherSlugs(old(catalog.rows), p.id)
    ensures slug == FixSlug(old(catalog.rows), p.id.value)
    ensures catalog.nextId == old(catalog.nextId)
  {
    var base := FixBase(p.name, p.id.value);
    slug, k := FirstFreeSlug(base, OtherSlugs(catalog.rows, p.id));
    FirstFreeUnique(base, OtherSlugs(catalog.rows, p.id), k);
    var r := catalog.Save(p.(slug := slug));
    assert r.Saved?;
  }

  /** The base slug of each queued product. */
  ghost function Bases(rows: map<ProductId, Product>, queue: seq<ProductId>): (bases: seq<string>)
    ensures |bases| == |queue|
    ensures forall i :: 0 <= i < |queue| && queue[i] in rows ==> bases[i] == FixBase(rows[queue[i]].name, queue[i])
  {
    seq(|queue|, i requires 0 <= i < |queue| =>
      if queue[i] in rows then FixBase(rows[queue[i]].name, queue[i]) else "product")
  }

  /**
   * When every queued product has been reached, no slug is empty any more, the rows
   * outside the queue kept their slug, and each queued product is settled on its base.
   */
  lemma Finished(start: map<ProductId, Product>, rows: map<ProductId, Product>, queue: seq<ProductId>,
                 bases: seq<string>, suffixes: seq<nat>)
    requires forall k :: k in queue <==> k in EmptySlugIds(start)
    requires Progress(start, rows, queue, bases, |queue|, suffixes)
    requires forall i :: 0 <= i < |queue| && queue[i] in start ==> bases[i] == FixBase(start[queue[i]].name, queue[i])
    ensures EmptySlugIds(rows) == {}
    ensures forall k :: k in rows && start[k].slug != "" ==> rows[k].slug == start[k].slug
    ensures forall i :: 0 <= i < |queue| ==>
              queue[i] in start && Settled(rows, queue[i], FixBase(start[queue[i]].name, queue[i]), suffixes[i])
  {
    assert queue[..|queue|] == queue;
    forall k | k in rows ensures rows[k].slug != "" {
      if k in queue {
        var i :| 0 <= i < |queue| && queue[i] == k;
        assert Settled(rows, queue[i], bases[i], suffixes[i]);
      }
    }
  }

  /** The next queued product is still in the table, with its original name and an empty slug. */
  lemma NextReady(start: map<ProductId, Product>, rows: map<ProductId, Product>, queue: seq<ProductId>,
                  bases: seq<string>, n: nat, suffixes: seq<nat>)
    requires forall i, j :: 0 <= i < j < |queue| ==> queue[i] != queue[j]
    requires forall k :: k in queue <==> k in EmptySlugIds(start)
    requires n < |queue| && Progress(start, rows, queue, bases, n, suffixes)
    requires forall i :: 0 <= i < |queue| && queue[i] in start ==> bases[i] == FixBase(start[queue[i]].name, queue[i])
    ensures queue[n] in start && start[queue[n]].slug == ""
    ensures queue[n] in rows && rows[queue[n]].slug == "" && rows[queue[n]].name == start[queue[n]].name
    ensures bases[n] == FixBase(rows[queue[n]].name, queue[n])
  {
    var id := queue[n];
    assert id in queue;
    assert id !in queue[..n];
    assert rows[id] == start[id].(slug := rows[id].slug);
  }

  /** One turn of the command's loop, on the n-th queued product: the invariant advances by one. */
  method FixNext(catalog: Catalog, queue: seq<ProductId>, n: nat,
                 ghost start: map<ProductId, Product>, ghost bases: seq<string>, ghost suffixes: seq<nat>)
    returns (ghost k: nat)
    requires catalog.Valid()
    requires forall i, j :: 0 <= i < j < |queue| ==> queue[i] != queue[j]
    requires forall k :: k in queue <==> k in EmptySlugIds(start)
    requires n < |queue| && Progress(start, catalog.rows, queue, bases, n, suffixes)
    requires catalog.rows == FixAll(start, queue[..n])
    requires forall i :: 0 <= i < |queue| && queue[i] in start ==> bases[i] == FixBase(start[queue[i]].name, queue[i])
    modifies catalog
    ensures catalog.Valid()
    ensures Progress(start, catalog.rows, queue, bases, n + 1, suffixes + [k])
    ensures catalog.rows == FixAll(start, queue[..n + 1])
    ensures catalog.nextId == old(catalog.nextId)
  {
    var id := queue[n];
    NextReady(start, catalog.rows, queue, bases, n, suffixes);
    var p := catalog.rows[id];
    ghost var before := catalog.rows;
    var slug;
    slug, k := FixOne(catalog, p);
    ProgressStep(start, before, queue, bases, n, suffixes, slug, k);
    FixAllStep(start, queue, n);
  }

  /**
   * The command. `queue` is the order in which the query set yields the products with
   * an empty slug: each of them exactly once. The result is `fixed_count`; `suffixes`
   * records which candidate each product received.
   */
  method FixEmptySlugs(catalog: Catalog, queue: seq<ProductId>) returns (fixedCount: nat, ghost suffixes: seq<nat>)
    requires catalog.Valid()
    requires forall i, j :: 0 <= i < j < |queue| ==> queue[i] != queue[j]
    requires forall k :: k in queue <==> k in EmptySlugIds(catalog.rows)
    modifies catalog
    ensures catalog.Valid()
    ensures queue == [] ==> catalog.rows == old(catalog.rows)
    ensures fixedCount == |queue| && |suffixes| == |queue|
    ensures SlugsOnlyChanged(old(catalog.rows), catalog.rows)
    ensures forall k :: k in catalog.rows && old(catalog.rows)[k].slug != "" ==> catalog.rows[k].slug == old(catalog.rows)[k].slug
    ensures EmptySlugIds(catalog.rows) == {}
    ensures catalog.rows == FixAll(old(catalog.rows), queue)
    ensures catalog.nextId == old(catalog.nextId)
    ensures forall i :: 0 <= i < |queue| ==>
              Settled(catalog.rows, queue[i], FixBase(old(catalog.rows)[queue[i]].name, queue[i]), suffixes[i])
  {
    fixedCount := 0;
    suffixes := [];
    if queue == [] {
      return;
    }
    ghost var start := catalog.rows;
    ghost var bases := Bases(start, queue);
    for n := 0 to |queue|
      invariant catalog.Valid()
      invariant fixedCount == n
      invariant Progress(start, catalog.rows, queue, bases, n, suffixes)
      invariant catalog.rows == FixAll(start, queue[..n])
      invariant catalog.nextId == old(catalog.nextId)
    {
      ghost var k := FixNext(catalog, queue, n, start, bases, suffixes);
      suffixes := suffixes + [k];
      fixedCount := fixedCount + 1;
    }
    assert queue[..|queue|] == queue;
    Finished(start, catalog.rows, queue, bases, suffixes);
  }
}
