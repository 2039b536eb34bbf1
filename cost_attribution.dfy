/** Point-in-time cost attribution: the `OUTER APPLY (SELECT TOP 1 pol.UnitCost ...
    ORDER BY p.PoDate DESC)` of the sales-KPI query, evaluated for one item as of one date. */
module CostAttribution {
  import opened Sql
  import opened Schema

  /** A row of the applied subquery before `TOP 1`: the order date and the unit cost. */
  datatype Candidate = Candidate(poDate: int, unitCost: real)

  /** The join and filter of the subquery for one pair of rows:
      `pol INNER JOIN p ON pol.PoId = p.PoId WHERE pol.ItemId = itemId AND p.PoDate <= asOf`. */
  predicate Qualifies(pol: PurchaseOrderLine, p: PurchaseOrder, itemId: int, asOf: int)
  {
    pol.poId == p.poId && pol.itemId == itemId && p.poDate <= asOf
  }

  /** The subquery rows contributed by one purchase-order line. */
  function Matches(pol: PurchaseOrderLine, pos: seq<PurchaseOrder>, itemId: int, asOf: int): (r: seq<Candidate>)
    ensures forall p :: p in pos && Qualifies(pol, p, itemId, asOf) ==> Candidate(p.poDate, pol.unitCost) in r
    ensures forall c :: c in r ==> exists p :: p in pos && Qualifies(pol, p, itemId, asOf) && c == Candidate(p.poDate, pol.unitCost)
  {
    if pos == [] then []
    else
      (if Qualifies(pol, pos[0], itemId, asOf) then [Candidate(pos[0].poDate, pol.unitCost)] else [])
      + Matches(pol, pos[1..], itemId, asOf)
  }

  /** All rows of the subquery for `itemId` as of `asOf`: exactly the joined purchase lines
      of that item whose order is dated on or before `asOf`. */
  function Candidates(pols: seq<PurchaseOrderLine>, pos: seq<PurchaseOrder>, itemId: int, asOf: int): (r: seq<Candidate>)
    ensures forall pol, p :: pol in pols && p in pos && Qualifies(pol, p, itemId, asOf) ==> Candidate(p.poDate, pol.unitCost) in r
    ensures forall c :: c in r ==> exists pol, p :: pol in pols && p in pos && Qualifies(pol, p, itemId, asOf) && c == Candidate(p.poDate, pol.unitCost)
    ensures forall c :: c in r ==> c.poDate <= asOf
  {
    if pols == [] then []
    else Matches(pols[0], pos, itemId, asOf) + Candidates(pols[1..], pos, itemId, asOf)
  }

  /** `c` is a row of the subquery whose date no other row exceeds. */
  ghost predicate IsLatest(cands: seq<Candidate>, c: Candidate)
  {
    c in cands && forall d :: d in cands ==> d.poDate <= c.poDate
  }

  /** What `TOP 1 ... ORDER BY PoDate DESC` may return: `NULL` when the subquery is empty,
      otherwise the unit cost of SOME latest row. Rows tied on the latest date are not
      ordered by the query, so any of them is a permitted answer. */
  ghost predicate IsTop1(cands: seq<Candidate>, r: Option<real>)
  {
    match r
    case None => cands == []
    case Some(u) => exists c :: IsLatest(cands, c) && c.unitCost == u
  }

  /** The cost `ISNULL(lastp.UnitCost, 0)` attributes: 0 when nothing qualifies, otherwise
      the unit cost of a latest qualifying row. */
  ghost predicate IsAttributedCost(cands: seq<Candidate>, cost: real)
  {
    (cands == [] && cost == 0.0) || exists c :: IsLatest(cands, c) && c.unitCost == cost
  }

  /** Attribution as the query writes it: coalesce the `TOP 1` result to 0. */
  function AttributedCost(top1: Option<real>): real
  {
    Coalesce(top1, 0.0)
  }

  /** Whatever row `TOP 1` picks, coalescing it gives an attributed cost. */
  lemma Top1Attributes(cands: seq<Candidate>, top1: Option<real>)
    requires IsTop1(cands, top1)
    ensures IsAttributedCost(cands, AttributedCost(top1))
  {
  }

  /** A row of maximal date exists in every non-empty subquery result: the position of one
      (the first listed among ties, as one admissible choice; the query promises none). */
  function LatestIndex(cands: seq<Candidate>): (k: nat)
    requires cands != []
    ensures k < |cands|
    ensures forall j :: 0 <= j < |cands| ==> cands[j].poDate <= cands[k].poDate
  {
    if |cands| == 1 then 0
    else
      var k := LatestIndex(cands[1..]) + 1;
      if cands[k].poDate <= cands[0].poDate then 0 else k
  }

  /** `TOP 1` always has an answer: one exists for every subquery result. */
  function SomeTop1(cands: seq<Candidate>): (r: Option<real>)
    ensures IsTop1(cands, r)
  {
    if cands == [] then None
    else
      var k := LatestIndex(cands);
      assert cands[k] in cands;
      Some(cands[k].unitCost)
  }

  /** When the latest-dated qualifying rows all carry the same cost (in particular when one
      row is strictly the latest), every permitted `TOP 1` answer is that cost. */
  lemma Top1Determined(cands: seq<Candidate>, c: Candidate, top1: Option<real>)
    requires c in cands
    requires forall d :: d in cands ==> d.poDate < c.poDate || (d.poDate == c.poDate && d.unitCost == c.unitCost)
    requires IsTop1(cands, top1)
    ensures top1 == Some(c.unitCost)
  {
  }

  /** The subquery does not see a purchase order dated after `asOf`: adding it, with lines
      of its own, leaves the rows of the subquery unchanged. */
  lemma {:induction false} FuturePurchaseIgnored(pols: seq<PurchaseOrderLine>, pos: seq<PurchaseOrder>,
                                                 p: PurchaseOrder, lines: seq<PurchaseOrderLine>, itemId: int, asOf: int)
    requires asOf < p.poDate
    requires forall q :: q in pos ==> q.poId != p.poId
    requires forall l :: l in lines ==> l.poId == p.poId
    ensures Candidates(pols + lines, pos + [p], itemId, asOf) == Candidates(pols, pos, itemId, asOf)
  {
    if pols == [] {
      NewLinesMatchNothing(lines, pos + [p], p, itemId, asOf);
      assert pols + lines == lines;
      assert Candidates(lines, pos + [p], itemId, asOf) == [];
    } else {
      assert (pols + lines)[0] == pols[0];
      assert (pols + lines)[1..] == pols[1..] + lines;
      FuturePurchaseIgnored(pols[1..], pos, p, lines, itemId, asOf);
      MatchesIgnoreLaterOrder(pols[0], pos, p, itemId, asOf);
    }
  }

  /** One line does not join with an order dated after `asOf`. */
  lemma {:induction false} MatchesIgnoreLaterOrder(pol: PurchaseOrderLine, pos: seq<PurchaseOrder>, p: PurchaseOrder, itemId: int, asOf: int)
    requires asOf < p.poDate
    ensures Matches(pol, pos + [p], itemId, asOf) == Matches(pol, pos, itemId, asOf)
  {
    if pos == [] {
      assert pos + [p] == [p];
      assert Matches(pol, [p][1..], itemId, asOf) == [];
    } else {
      assert (pos + [p])[0] == pos[0];
      assert (pos + [p])[1..] == pos[1..] + [p];
      MatchesIgnoreLaterOrder(pol, pos[1..], p, itemId, asOf);
    }
  }

  /** Lines of an order that is later than `asOf` and shares its id with no other order
      contribute no subquery rows. */
  lemma {:induction false} NewLinesMatchNothing(lines: seq<PurchaseOrderLine>, orders: seq<PurchaseOrder>, p: PurchaseOrder, itemId: int, asOf: int)
    requires asOf < p.poDate
    requires forall q :: q in orders && q != p ==> q.poId != p.poId
    requires forall l :: l in lines ==> l.poId == p.poId
    ensures Candidates(lines, orders, itemId, asOf) == []
  {
    if lines != [] {
      assert lines[0] in lines;
      LineMatchesNothing(lines[0], orders, p, itemId, asOf);
      NewLinesMatchNothing(lines[1..], orders, p, itemId, asOf);
    }
  }

  /** One line of such an order contributes no subquery rows. */
  lemma {:induction false} LineMatchesNothing(line: PurchaseOrderLine, orders: seq<PurchaseOrder>, p: PurchaseOrder, itemId: int, asOf: int)
    requires asOf < p.poDate
    requires forall q :: q in orders && q != p ==> q.poId != p.poId
    requires line.poId == p.poId
    ensures Matches(line, orders, itemId, asOf) == []
  {
    if orders != [] {
      assert orders[0] in orders;
      LineMatchesNothing(line, orders[1..], p, itemId, asOf);
    }
  }

  /** A new purchase order with one line, not later than `asOf` and strictly later than every
      qualifying purchase already recorded, takes over: every permitted attribution is its unit cost. */
  lemma NewerPurchaseTakesOver(pols: seq<PurchaseOrderLine>, pos: seq<PurchaseOrder>,
                               p: PurchaseOrder, itemId: int, unitCost: real, asOf: int, top1: Option<real>)
    requires p.poDate <= asOf
    requires forall q :: q in pos ==> q.poId != p.poId
    requires forall l :: l in pols ==> l.poId != p.poId
    requires forall c :: c in Candidates(pols, pos, itemId, asOf) ==> c.poDate < p.poDate
    requires IsTop1(Candidates(pols + [PurchaseOrderLine(p.poId, itemId, unitCost)], pos + [p], itemId, asOf), top1)
    ensures AttributedCost(top1) == unitCost
  {
  }
}
