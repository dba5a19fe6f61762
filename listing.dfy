/** The default ordering of the project and task lists, `ORDER BY created_at
    DESC`. `created_at` is nullable, and where a NULL sorts depends on the
    database engine (last on SQLite and MySQL, first on PostgreSQL), so the
    placement is a parameter. Rows with equal timestamps may come in any
    order. */
module Listing {

  import opened Common

  /** Under `created_at DESC`, a row stamped `a` may come before one stamped `b`. */
  predicate MayPrecede(a: Option<Time>, b: Option<Time>, nullsLast: bool)
  {
    match (a, b)
    case (Some(x), Some(y)) => x >= y
    case (Some(_), None) => nullsLast
    case (None, Some(_)) => !nullsLast
    case (None, None) => true
  }

  /** The relation is a total preorder: any two stamps are comparable. */
  lemma MayPrecedeTotal(a: Option<Time>, b: Option<Time>, nullsLast: bool)
    ensures MayPrecede(a, b, nullsLast) || MayPrecede(b, a, nullsLast)
  {
  }

  lemma MayPrecedeTransitive(a: Option<Time>, b: Option<Time>, c: Option<Time>, nullsLast: bool)
    requires MayPrecede(a, b, nullsLast) && MayPrecede(b, c, nullsLast)
    ensures MayPrecede(a, c, nullsLast)
  {
  }

  /** `order` lists each key at most once, newest first. */
  ghost predicate NewestFirst(stamps: map<int, Option<Time>>, order: seq<int>, nullsLast: bool)
  {
    && (forall i :: 0 <= i < |order| ==> order[i] in stamps)
    && (forall i, j :: 0 <= i < j < |order| ==> order[i] != order[j])
    && (forall i, j :: 0 <= i < j < |order| ==> MayPrecede(stamps[order[i]], stamps[order[j]], nullsLast))
  }

  /** `x` is one of `ids` and may precede each of them. */
  ghost predicate NewestIn(stamps: map<int, Option<Time>>, x: int, ids: set<int>, nullsLast: bool)
    requires ids <= stamps.Keys
  {
    x in ids && forall y :: y in ids ==> MayPrecede(stamps[x], stamps[y], nullsLast)
  }

  /** Every non-empty set of rows has a newest row. */
  lemma {:induction false} HasNewest(stamps: map<int, Option<Time>>, ids: set<int>, nullsLast: bool)
    requires ids != {} && ids <= stamps.Keys
    ensures exists x :: NewestIn(stamps, x, ids, nullsLast)
    decreases ids
  {
    NonEmptyHasMember(ids);
    var z :| z in ids;
    var rest := ids - {z};
    if rest == {} {
      SingleNewest(stamps, z, ids, nullsLast);
    } else {
      HasNewest(stamps, rest, nullsLast);
      var x :| NewestIn(stamps, x, rest, nullsLast);
      AddOne(stamps, x, z, rest, nullsLast);
      assert rest + {z} == ids;
    }
  }

  lemma SingleNewest(stamps: map<int, Option<Time>>, z: int, ids: set<int>, nullsLast: bool)
    requires ids <= stamps.Keys && z in ids && ids - {z} == {}
    ensures NewestIn(stamps, z, ids, nullsLast)
  {
    forall y | y in ids ensures MayPrecede(stamps[z], stamps[y], nullsLast) {
      assert y == z || y in ids - {z};
    }
  }

  /** Adding a row `z` to a set whose newest row is `x` leaves `x` or `z` newest. */
  lemma AddOne(stamps: map<int, Option<Time>>, x: int, z: int, rest: set<int>, nullsLast: bool)
    requires rest <= stamps.Keys && z in stamps && NewestIn(stamps, x, rest, nullsLast)
    ensures NewestIn(stamps, x, rest + {z}, nullsLast) || NewestIn(stamps, z, rest + {z}, nullsLast)
  {
    MayPrecedeTotal(stamps[x], stamps[z], nullsLast);
    if !MayPrecede(stamps[x], stamps[z], nullsLast) {
      forall y | y in rest + {z} ensures MayPrecede(stamps[z], stamps[y], nullsLast) {
        if y != z {
          MayPrecedeTransitive(stamps[z], stamps[x], stamps[y], nullsLast);
        }
      }
    }
  }

  /** The `created_at` of every row, which the default ordering reads. */
  function CreatedStamps<T>(rows: map<int, T>, createdAt: T -> Option<Time>): (r: map<int, Option<Time>>)
    ensures r.Keys == rows.Keys
    ensures forall k :: k in rows ==> r[k] == createdAt(rows[k])
  {
    map k | k in rows :: createdAt(rows[k])
  }

  /** A listing of `ids` in the default order: exactly the given rows, each
      once, newest first. It exists for every finite set of rows. */
  ghost function Ordered(stamps: map<int, Option<Time>>, ids: set<int>, nullsLast: bool): (order: seq<int>)
    requires ids <= stamps.Keys
    ensures forall k :: k in order <==> k in ids
    ensures |order| == |ids|
    ensures NewestFirst(stamps, order, nullsLast)
    decreases ids
  {
    if ids == {} then []
    else
      HasNewest(stamps, ids, nullsLast);
      var x :| NewestIn(stamps, x, ids, nullsLast);
      [x] + Ordered(stamps, ids - {x}, nullsLast)
  }
}
