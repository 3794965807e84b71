/** The two records of the raffle creator and the list operations that the
    main screen performs on them: removing one raffle at a position, and
    dropping every participant that belongs to a removed raffle. */
module Domain {

  /** A raffle's identifier. How the app generates it is not part of this
      model: only equality on identifiers is used, and no uniqueness is assumed. */
  type RaffleId = int

  datatype Raffle = Raffle(id: RaffleId, name: string)

  /** A participant refers to its raffle by identifier. The other fields of a
      participant are not used by the main screen; `name` stands for them. */
  datatype Participant = Participant(raffleId: RaffleId, name: string)

  /** The list left behind by an in-place `removeAll`, with the flag it returns. */
  datatype Filtered = Filtered(kept: seq<Participant>, removed: bool)

  /** `raffles.removeAt(position)` on an array list: the element at `i` goes,
      the others close up and keep their order. */
  function RemoveAt<T>(s: seq<T>, i: nat): (r: seq<T>)
    requires i < |s|
    ensures |r| == |s| - 1
    ensures forall k :: 0 <= k < i ==> r[k] == s[k]
    ensures forall k :: i <= k < |r| ==> r[k] == s[k + 1]
    ensures multiset(r) + multiset{s[i]} == multiset(s)
  {
    assert s == s[..i] + [s[i]] + s[i + 1..];
    s[..i] + s[i + 1..]
  }

  /** `participants.removeAll { p -> p.raffleId == id }`: every participant of
      raffle `id` is dropped, the rest keep their order, and the flag says
      whether anything was dropped. */
  function RemoveAll(ps: seq<Participant>, id: RaffleId): (r: Filtered)
    ensures forall i :: 0 <= i < |r.kept| ==> r.kept[i].raffleId != id
    ensures r.removed <==> exists i :: 0 <= i < |ps| && ps[i].raffleId == id
    ensures !r.removed ==> r.kept == ps
    ensures r.removed ==> |r.kept| < |ps|
  {
    if ps == [] then Filtered([], false)
    else
      var rest := RemoveAll(ps[1..], id);
      assert forall i :: 1 <= i < |ps| ==> ps[i] == ps[1..][i - 1];
      if ps[0].raffleId == id then Filtered(rest.kept, true)
      else Filtered([ps[0]] + rest.kept, rest.removed)
  }

  /** Filtering is applied element by element: filtering a concatenation is
      the concatenation of the filtered parts. Together with the one-element
      case this pins down that the kept participants stay in their original order. */
  lemma {:induction false} RemoveAllConcat(a: seq<Participant>, b: seq<Participant>, id: RaffleId)
    ensures RemoveAll(a + b, id).kept == RemoveAll(a, id).kept + RemoveAll(b, id).kept
    ensures RemoveAll(a + b, id).removed == (RemoveAll(a, id).removed || RemoveAll(b, id).removed)
  {
    if a == [] {
      assert a + b == b;
    } else {
      var ab := a + b;
      assert ab[1..] == a[1..] + b;
      assert ab[0] == a[0];
      RemoveAllConcat(a[1..], b, id);
    }
  }

  /** The kept participants are exactly the participants of other raffles,
      each as often as in the loaded list. */
  lemma {:induction false} RemoveAllKeepsOthers(ps: seq<Participant>, id: RaffleId)
    ensures forall p :: multiset(RemoveAll(ps, id).kept)[p] == if p.raffleId == id then 0 else multiset(ps)[p]
  {
    if ps != [] {
      RemoveAllKeepsOthers(ps[1..], id);
      assert ps == [ps[0]] + ps[1..];
    }
  }

  /** A one-participant list is kept exactly when the participant belongs to
      another raffle. */
  lemma RemoveAllSingle(p: Participant, id: RaffleId)
    ensures RemoveAll([p], id) == if p.raffleId == id then Filtered([], true) else Filtered([p], false)
  {
    assert [p][1..] == [];
  }

  /** Some raffle in `raffles` has identifier `id`. */
  ghost predicate HasRaffle(raffles: seq<Raffle>, id: RaffleId)
  {
    exists j :: 0 <= j < |raffles| && raffles[j].id == id
  }

  /** Every participant refers to a raffle in the list. */
  ghost predicate AllReferenced(ps: seq<Participant>, raffles: seq<Raffle>)
  {
    forall i :: 0 <= i < |ps| ==> HasRaffle(raffles, ps[i].raffleId)
  }

  /** Cascade removal keeps the participants' references intact: when every
      participant referred to an existing raffle before, every participant that
      survives still refers to a raffle that survives. No uniqueness of
      identifiers is needed. */
  lemma CascadeKeepsReferences(raffles: seq<Raffle>, ps: seq<Participant>, position: nat)
    requires position < |raffles|
    requires AllReferenced(ps, raffles)
    ensures AllReferenced(RemoveAll(ps, raffles[position].id).kept, RemoveAt(raffles, position))
  {
    var gone := raffles[position].id;
    var kept := RemoveAll(ps, gone).kept;
    var rest := RemoveAt(raffles, position);
    forall i | 0 <= i < |kept|
      ensures HasRaffle(rest, kept[i].raffleId)
    {
      var p := kept[i];
      RemoveAllKeepsOthers(ps, gone);
      assert multiset(kept)[p] > 0;
      assert p in multiset(ps);
      var k :| 0 <= k < |ps| && ps[k] == p;
      var j :| 0 <= j < |raffles| && raffles[j].id == ps[k].raffleId;
      assert j != position;
      if j < position {
        assert rest[j] == raffles[j];
      } else {
        assert rest[j - 1] == raffles[j];
      }
    }
  }
}
