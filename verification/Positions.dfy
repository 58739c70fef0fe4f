/** Listing what a nested structure holds, position by position.

    A position is a path of four indices, ordered from left to right. A table gives the entry of
    every position that has one; a list of entries is exact for a stretch of positions when it
    holds each of them once, in order, and nothing else. */
module Positions {

  datatype Position = At(a: nat, b: nat, c: nat, d: nat)

  predicate Before(p: Position, q: Position) {
    || p.a < q.a
    || (p.a == q.a && (p.b < q.b || (p.b == q.b && (p.c < q.c || (p.c == q.c && p.d < q.d)))))
  }

  predicate Within(p: Position, from: Position, to: Position) {
    !Before(p, from) && Before(p, to)
  }

  ghost predicate Lists<T>(table: imap<Position, T>, from: Position, to: Position,
                           positions: seq<Position>, entries: seq<T>) {
    && |positions| == |entries|
    && (forall n | 0 <= n < |positions| ::
          positions[n] in table && Within(positions[n], from, to) && entries[n] == table[positions[n]])
    && (forall m, n | 0 <= m < n < |positions| :: Before(positions[m], positions[n]))
    && forall p | p in table && Within(p, from, to) :: p in positions
  }

  lemma ListsNothing<T>(table: imap<Position, T>, from: Position, to: Position)
    requires forall p | p in table :: !Within(p, from, to)
    ensures Lists(table, from, to, [], [])
  {
  }

  lemma ListsOne<T>(table: imap<Position, T>, from: Position, to: Position)
    requires from in table && Before(from, to)
    requires forall p | p in table && Within(p, from, to) :: p == from
    ensures Lists(table, from, to, [from], [table[from]])
  {
  }

  /** One list after the other is exact for both stretches together. */
  lemma ListsJoin<T>(table: imap<Position, T>, from: Position, mid: Position, to: Position,
                     left: seq<Position>, first: seq<T>, right: seq<Position>, second: seq<T>)
    requires Lists(table, from, mid, left, first) && Lists(table, mid, to, right, second)
    requires !Before(mid, from) && !Before(to, mid)
    ensures Lists(table, from, to, left + right, first + second)
  {
    var positions, entries := left + right, first + second;
    forall n | 0 <= n < |positions|
      ensures positions[n] in table && Within(positions[n], from, to) && entries[n] == table[positions[n]]
    {
      if n < |left| {
        assert positions[n] == left[n];
      } else {
        assert positions[n] == right[n - |left|];
      }
    }
    forall m, n | 0 <= m < n < |positions|
      ensures Before(positions[m], positions[n])
    {
      if n < |left| {
        assert positions[m] == left[m] && positions[n] == left[n];
      } else if m < |left| {
        assert positions[m] == left[m] && positions[n] == right[n - |left|];
      } else {
        assert positions[m] == right[m - |left|] && positions[n] == right[n - |left|];
      }
    }
    forall p | p in table && Within(p, from, to)
      ensures p in positions
    {
      if Within(p, from, mid) {
        assert p in left;
      } else {
        assert p in right;
      }
    }
  }

  /** A stretch without entries may be added. */
  lemma ListsWiden<T>(table: imap<Position, T>, from: Position, mid: Position, to: Position,
                      positions: seq<Position>, entries: seq<T>)
    requires Lists(table, from, mid, positions, entries)
    requires !Before(mid, from) && !Before(to, mid)
    requires forall p | p in table :: !Within(p, mid, to)
    ensures Lists(table, from, to, positions, entries)
  {
  }
}
