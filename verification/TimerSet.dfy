/** The ordered set of timer entries, kept as a strictly increasing sequence. */
module TimerSet {
  type Addr = nat

  // Keyed by expiration, then by address.
  datatype Entry = Entry(time: int, addr: Addr)

  predicate Less(a: Entry, b: Entry)
  {
    a.time < b.time || (a.time == b.time && a.addr < b.addr)
  }

  ghost predicate Sorted(ts: seq<Entry>)
  {
    forall i, j :: 0 <= i < j < |ts| ==> Less(ts[i], ts[j])
  }

  function Insert(ts: seq<Entry>, e: Entry): (r: seq<Entry>)
    ensures forall x :: x in r <==> x in ts || x == e
    ensures Sorted(ts) ==> Sorted(r)
    ensures e !in ts ==> |r| == |ts| + 1
    ensures r != [] && r[0] == if ts == [] || Less(e, ts[0]) then e else ts[0]
  {
    if ts == [] || Less(e, ts[0]) then [e] + ts
    else if ts[0] == e then ts
    else
      var rest := Insert(ts[1..], e);
      assert forall x :: x in [ts[0]] + rest <==> x == ts[0] || x in ts[1..] || x == e;
      assert Sorted(ts) ==> forall x :: x in rest ==> Less(ts[0], x);
      [ts[0]] + rest
  }

  function Erase(ts: seq<Entry>, e: Entry): (r: seq<Entry>)
    ensures Sorted(ts) ==> Sorted(r) && forall x :: x in r <==> x in ts && x != e
    ensures e in ts ==> |r| == |ts| - 1
    ensures ts != [] && ts[0] != e ==> r != [] && r[0] == ts[0]
  {
    if ts == [] then []
    else if ts[0] == e then ts[1..]
    else
      var rest := Erase(ts[1..], e);
      assert forall x :: x in [ts[0]] + rest <==> x == ts[0] || x in rest;
      assert Sorted(ts) ==> Sorted(ts[1..]) && forall x :: x in rest ==> x in ts[1..];
      assert Sorted(ts) ==> forall x :: x in ts[1..] ==> Less(ts[0], x);
      [ts[0]] + rest
  }

  // The position of the first entry that is not less than `e`.
  function LowerBound(ts: seq<Entry>, e: Entry): (k: nat)
    ensures k <= |ts|
    ensures forall i :: 0 <= i < k ==> Less(ts[i], e)
    ensures Sorted(ts) ==> forall i :: k <= i < |ts| ==> !Less(ts[i], e)
  {
    if ts == [] || !Less(ts[0], e) then 0
    else
      var k := LowerBound(ts[1..], e);
      assert forall i :: 0 < i < |ts| ==> ts[i] == ts[1..][i - 1];
      k + 1
  }

  // The head of a sorted set is its least entry.
  lemma HeadLeast(ts: seq<Entry>, e: Entry)
    requires Sorted(ts) && e in ts
    ensures ts[0].time <= e.time
  {
    var i :| 0 <= i < |ts| && ts[i] == e;
  }
}
