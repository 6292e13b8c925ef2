/**
  The set of candidates as the source stores it: a search tree ordered by the keys of its blocks. The tree stands for
  the sequence of its blocks from first to last. A search compares with the keys the blocks have at that time, so what
  it finds is right only while the stored order and the order of the keys agree.
 */
module MostWorkOrder {
  import opened Chain

  /** Less work, or as much but received later, or else at a higher address. */
  predicate Less(a: BlockIndex, b: BlockIndex)
    reads a`sequenceId, b`sequenceId
  {
    || a.chainWork < b.chainWork
    || (a.chainWork == b.chainWork &&
        (a.sequenceId > b.sequenceId || (a.sequenceId == b.sequenceId && a.address > b.address)))
  }

  /** Different blocks lie at different addresses. */
  ghost predicate Apart(blocks: set<BlockIndex>) {
    forall a, b | a in blocks && b in blocks && a.address == b.address :: a == b
  }

  lemma LessIsTotal(blocks: set<BlockIndex>, a: BlockIndex, b: BlockIndex, c: BlockIndex)
    requires Apart(blocks) && a in blocks && b in blocks && c in blocks
    ensures !Less(a, a) && (Less(a, b) ==> !Less(b, a)) && (a == b || Less(a, b) || Less(b, a))
    ensures Less(a, b) && Less(b, c) ==> Less(a, c)
  {
  }

  // ---- Searching ----

  ghost predicate Ordered(s: seq<BlockIndex>)
    reads s`sequenceId
  {
    forall i, j | 0 <= i < j < |s| :: Less(s[i], s[j])
  }

  ghost predicate Holds(s: seq<BlockIndex>, some: set<BlockIndex>) {
    (forall b | b in s :: b in some) && (forall b | b in some :: b in s)
  }

  /**
    How far a descent goes that turns right at blocks before `b`. The shape of the tree is not known, so any block of
    the range still open may be next.
   */
  method LowerBound(s: seq<BlockIndex>, b: BlockIndex, from: nat, to: nat) returns (k: nat)
    requires from <= to <= |s|
    ensures from <= k <= to && (k > from ==> Less(s[k - 1], b)) && (k < to ==> !Less(s[k], b))
  {
    var hi;
    k, hi := from, to;
    while k < hi
      invariant from <= k <= hi <= to
      invariant (k > from ==> Less(s[k - 1], b)) && (hi < to ==> !Less(s[hi], b))
    {
      var at :| k <= at < hi;
      if Less(s[at], b) {
        k := at + 1;
      } else {
        hi := at;
      }
    }
  }

  /** The same, turning left at blocks after `b`. */
  method UpperBound(s: seq<BlockIndex>, b: BlockIndex, from: nat, to: nat) returns (k: nat)
    requires from <= to <= |s|
    ensures from <= k <= to && (k > from ==> !Less(b, s[k - 1])) && (k < to ==> Less(b, s[k]))
  {
    var hi;
    k, hi := from, to;
    while k < hi
      invariant from <= k <= hi <= to
      invariant (k > from ==> !Less(b, s[k - 1])) && (hi < to ==> Less(b, s[hi]))
    {
      var at :| k <= at < hi;
      if Less(b, s[at]) {
        hi := at;
      } else {
        k := at + 1;
      }
    }
  }

  /** A search for `b` can end with the stretch from `lo` to `hi` as what is equal to it. */
  ghost predicate Found(s: seq<BlockIndex>, b: BlockIndex, lo: nat, hi: nat)
    reads s`sequenceId, b`sequenceId
  {
    && lo <= hi <= |s| && (lo > 0 ==> Less(s[lo - 1], b)) && (hi < |s| ==> Less(b, s[hi]))
    && (lo < hi ==> exists at | lo <= at < hi :: Around(s, b, lo, at, hi))
  }

  ghost predicate Around(s: seq<BlockIndex>, b: BlockIndex, lo: nat, at: nat, hi: nat)
    requires lo <= at < hi <= |s|
    reads s`sequenceId, b`sequenceId
  {
    && !Less(s[at], b) && !Less(b, s[at])
    && (lo < at ==> !Less(s[lo], b)) && (at + 1 < hi ==> !Less(b, s[hi - 1]))
  }

  method EqualRange(s: seq<BlockIndex>, b: BlockIndex) returns (lo: nat, hi: nat)
    ensures Found(s, b, lo, hi)
  {
    lo, hi := 0, |s|;
    while lo < hi
      invariant lo <= hi <= |s| && (lo > 0 ==> Less(s[lo - 1], b)) && (hi < |s| ==> Less(b, s[hi]))
    {
      var at :| lo <= at < hi;
      if Less(s[at], b) {
        lo := at + 1;
      } else if Less(b, s[at]) {
        hi := at;
      } else {
        lo := LowerBound(s, b, lo, at);
        hi := UpperBound(s, b, at + 1, hi);
        assert Around(s, b, lo, at, hi);
        return;
      }
    }
  }

  /** What the set holds after everything found equal to `b` is erased. */
  ghost predicate Erased(s: seq<BlockIndex>, b: BlockIndex, s': seq<BlockIndex>)
    reads s`sequenceId, b`sequenceId
  {
    exists lo: nat, hi: nat | Found(s, b, lo, hi) :: s' == s[..lo] + s[hi..]
  }

  method Erasure(s: seq<BlockIndex>, b: BlockIndex) returns (s': seq<BlockIndex>)
    ensures Erased(s, b, s') && forall x | x in s' :: x in s
  {
    hide Found;
    var lo, hi := EqualRange(s, b);
    Bounds(s, b, lo, hi);
    s' := s[..lo] + s[hi..];
  }

  lemma Bounds(s: seq<BlockIndex>, b: BlockIndex, lo: nat, hi: nat)
    requires Found(s, b, lo, hi)
    ensures lo <= hi <= |s|
  {
  }

  /** In order, the search finds `b` and nothing else. */
  lemma FoundInOrder(blocks: set<BlockIndex>, s: seq<BlockIndex>, b: BlockIndex, lo: nat, hi: nat)
    requires Apart(blocks) && b in blocks && (forall x | x in s :: x in blocks) && Ordered(s) && Found(s, b, lo, hi)
    ensures if b in s then hi == lo + 1 && s[lo] == b else hi == lo
  {
    if b in s {
      var k :| 0 <= k < |s| && s[k] == b;
      assert lo <= k < hi;
    }
    if lo < hi {
      var at :| lo <= at < hi && Around(s, b, lo, at, hi);
      LessIsTotal(blocks, s[at], b, b);
      assert s[at] == b;
    }
  }

  /** In order, erasing takes out `b` and keeps the order. */
  lemma ErasedInOrder(blocks: set<BlockIndex>, s: seq<BlockIndex>, b: BlockIndex, s': seq<BlockIndex>)
    requires Apart(blocks) && b in blocks && (forall x | x in s :: x in blocks) && Ordered(s) && Erased(s, b, s')
    ensures Ordered(s') && forall x | x in blocks :: x in s' <==> x in s && x != b
  {
    hide Less, Apart;
    var lo: nat, hi: nat :| Found(s, b, lo, hi) && s' == s[..lo] + s[hi..];
    FoundInOrder(blocks, s, b, lo, hi);
    LessIsTotal(blocks, b, b, b);
    forall x | x in blocks
      ensures x in s' <==> x in s && x != b
    {
      if x in s && x != b {
        var k :| 0 <= k < |s| && s[k] == x;
        assert s'[if k < lo then k else k - (hi - lo)] == x;
      }
    }
  }

  /** What the set holds after `b` is offered: it goes in where the descent ends, unless it seems to be there. */
  ghost predicate Inserted(s: seq<BlockIndex>, b: BlockIndex, s': seq<BlockIndex>)
    reads s`sequenceId, b`sequenceId
  {
    exists k: nat | k <= |s| :: Placed(s, b, k, s')
  }

  ghost predicate Placed(s: seq<BlockIndex>, b: BlockIndex, k: nat, s': seq<BlockIndex>)
    requires k <= |s|
    reads s`sequenceId, b`sequenceId
  {
    && (k > 0 ==> !Less(b, s[k - 1])) && (k < |s| ==> Less(b, s[k]))
    && s' == if k == 0 || Less(s[k - 1], b) then s[..k] + [b] + s[k..] else s
  }

  method Insertion(s: seq<BlockIndex>, b: BlockIndex) returns (s': seq<BlockIndex>)
    ensures Inserted(s, b, s')
  {
    var k := UpperBound(s, b, 0, |s|);
    s' := if k == 0 || Less(s[k - 1], b) then s[..k] + [b] + s[k..] else s;
    assert Placed(s, b, k, s');
  }

  /** In any case nothing is lost and nothing but `b` is new. */
  lemma InsertedKeeps(s: seq<BlockIndex>, b: BlockIndex, s': seq<BlockIndex>)
    requires Inserted(s, b, s')
    ensures (forall x | x in s :: x in s') && (forall x | x in s' :: x in s || x == b)
  {
    var k: nat :| k <= |s| && Placed(s, b, k, s');
    assert s == s[..k] + s[k..];
  }

  /** In order, `b` is in the set afterwards, and the order is kept. */
  lemma InsertedInOrder(blocks: set<BlockIndex>, s: seq<BlockIndex>, b: BlockIndex, s': seq<BlockIndex>)
    requires Apart(blocks) && b in blocks && (forall x | x in s :: x in blocks) && Ordered(s) && Inserted(s, b, s')
    ensures Ordered(s') && b in s'
  {
    hide Apart;
    var k: nat :| k <= |s| && Placed(s, b, k, s');
    if k == 0 || Less(s[k - 1], b) {
      assert s'[k] == b;
      forall i, j | 0 <= i < j < |s'|
        ensures Less(s'[i], s'[j])
      {
        assert s'[i] == if i < k then s[i] else if i == k then b else s[i - 1];
        assert s'[j] == if j < k then s[j] else if j == k then b else s[j - 1];
      }
    } else {
      LessIsTotal(blocks, s[k - 1], b, b);
    }
  }

  // ---- Numbers that change ----

  type Numbers = map<BlockIndex, int>

  /** The order by given sequence numbers. */
  ghost predicate LessBy(num: Numbers, a: BlockIndex, b: BlockIndex)
    requires a in num && b in num
  {
    || a.chainWork < b.chainWork
    || (a.chainWork == b.chainWork && (num[a] > num[b] || (num[a] == num[b] && a.address > b.address)))
  }

  ghost predicate OrderedBy(num: Numbers, s: seq<BlockIndex>) {
    && (forall x | x in s :: x in num)
    && forall i, j | 0 <= i < j < |s| :: LessBy(num, s[i], s[j])
  }

  /**
    Blocks take turns in getting a number; the same block may take several. No stored block has a turn again after
    another stored block of the same work had one since.
   */
  predicate NoneFallsBehind(turns: seq<BlockIndex>, stored: set<BlockIndex>) {
    forall i, j, k | 0 <= i < j < k < |turns| && turns[i] == turns[k] && turns[i] in stored && turns[j] in stored ::
      turns[j] == turns[i] || turns[j].chainWork != turns[i].chainWork
  }

  /** The block had a turn, and after it another of its work. */
  ghost predicate FallsBehind(turns: seq<BlockIndex>, stored: set<BlockIndex>, b: BlockIndex) {
    exists i, j | 0 <= i < j < |turns| :: turns[i] == b && turns[j] != b && Rivals(stored, turns[j], b)
  }

  predicate Rivals(stored: set<BlockIndex>, a: BlockIndex, b: BlockIndex) {
    a in stored && b in stored && a.chainWork == b.chainWork
  }

  lemma OneMoreTurn(turns: seq<BlockIndex>, stored: set<BlockIndex>, b: BlockIndex)
    ensures NoneFallsBehind(turns + [b], stored) <==> NoneFallsBehind(turns, stored) && !FallsBehind(turns, stored, b)
  {
    var turns' := turns + [b];
    if NoneFallsBehind(turns', stored) {
      forall i, j, k | 0 <= i < j < k < |turns| && turns[i] == turns[k] && turns[i] in stored && turns[j] in stored
        ensures turns[j] == turns[i] || turns[j].chainWork != turns[i].chainWork
      {
        assert turns'[i] == turns'[k] && turns'[j] == turns[j];
      }
      forall i, j | 0 <= i < j < |turns|
        ensures !(turns[i] == b && turns[j] != b && Rivals(stored, turns[j], b))
      {
        assert turns'[i] == turns[i] && turns'[j] == turns[j] && turns'[|turns|] == b;
      }
    }
  }

  /** Of two stored blocks of the same work, the one with the earlier turn is the better. */
  ghost predicate Agree(num: Numbers, turns: seq<BlockIndex>, stored: set<BlockIndex>) {
    && (forall x | x in turns :: x in num)
    && forall i, j | 0 <= i < j < |turns| && turns[i] != turns[j] && Rivals(stored, turns[i], turns[j]) ::
      LessBy(num, turns[j], turns[i])
  }

  lemma AgreeMeansNone(num: Numbers, turns: seq<BlockIndex>, stored: set<BlockIndex>)
    requires Agree(num, turns, stored)
    ensures NoneFallsBehind(turns, stored)
  {
  }

  /**
    A new highest number for `b` leaves the stored order in place exactly if no rival had a turn since `b` had one.
   */
  lemma Renumbered(num: Numbers, s: seq<BlockIndex>, turns: seq<BlockIndex>, stored: set<BlockIndex>, b: BlockIndex,
                   n: int)
    requires OrderedBy(num, s) && Agree(num, turns, stored) && b in num && forall x | x in num :: num[x] < n
    requires (forall x | x in s :: x in turns && x in stored) && (forall x | x in turns && x in stored :: x in s)
    ensures OrderedBy(num[b := n], s) <==> NoneFallsBehind(turns + [b], stored)
    ensures NoneFallsBehind(turns + [b], stored) ==> Agree(num[b := n], turns + [b], stored)
  {
    AgreeMeansNone(num, turns, stored);
    OneMoreTurn(turns, stored, b);
    if FallsBehind(turns, stored, b) {
      OutOfOrder(num, s, turns, stored, b, n);
    } else {
      StillOrdered(num, s, turns, stored, b, n);
      StillAgree(num, turns, stored, b, n);
    }
  }

  lemma OutOfOrder(num: Numbers, s: seq<BlockIndex>, turns: seq<BlockIndex>, stored: set<BlockIndex>, b: BlockIndex,
                   n: int)
    requires OrderedBy(num, s) && Agree(num, turns, stored) && b in num && forall x | x in num :: num[x] < n
    requires (forall x | x in turns && x in stored :: x in s) && FallsBehind(turns, stored, b)
    ensures !OrderedBy(num[b := n], s)
  {
    var i, j :| 0 <= i < j < |turns| && turns[i] == b && turns[j] != b && Rivals(stored, turns[j], b);
    var d := turns[j];
    assert LessBy(num, d, b);
    var k, l :| 0 <= k < |s| && s[k] == d && 0 <= l < |s| && s[l] == b;
    assert k < l;
    assert !LessBy(num[b := n], s[k], s[l]);
  }

  lemma StillOrdered(num: Numbers, s: seq<BlockIndex>, turns: seq<BlockIndex>, stored: set<BlockIndex>, b: BlockIndex,
                     n: int)
    requires OrderedBy(num, s) && Agree(num, turns, stored) && b in num && forall x | x in num :: num[x] < n
    requires (forall x | x in s :: x in turns && x in stored) && !FallsBehind(turns, stored, b)
    ensures OrderedBy(num[b := n], s)
  {
    forall k, l | 0 <= k < l < |s|
      ensures LessBy(num[b := n], s[k], s[l])
    {
      assert LessBy(num, s[k], s[l]) && s[k] in s && s[l] in s;
    }
  }

  lemma StillAgree(num: Numbers, turns: seq<BlockIndex>, stored: set<BlockIndex>, b: BlockIndex, n: int)
    requires Agree(num, turns, stored) && b in num && forall x | x in num :: num[x] < n
    requires !FallsBehind(turns, stored, b)
    ensures Agree(num[b := n], turns + [b], stored)
  {
    var turns' := turns + [b];
    forall i, j | 0 <= i < j < |turns'| && turns'[i] != turns'[j] && Rivals(stored, turns'[i], turns'[j])
      ensures LessBy(num[b := n], turns'[j], turns'[i])
    {
      if j < |turns| {
        assert turns'[i] == turns[i] && turns'[j] == turns[j];
        assert LessBy(num, turns[j], turns[i]);
      }
    }
  }
}
