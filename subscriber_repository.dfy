/** The subscribers collection: insertion and the bulk read used by the notification fan-out. */
module SubscriberRepository {
  import opened Wrappers
  import opened ObjectIds
  import opened Domain

  function SubscriberIds(subs: seq<Subscriber>): set<ObjectId> {
    set s | s in subs :: s.id
  }

  /** The store's unique index on `_id`. */
  ghost predicate UniqueSubscriberIds(subs: seq<Subscriber>) {
    forall i, j :: 0 <= i < j < |subs| ==> subs[i].id != subs[j].id
  }

  /**
   * What can go wrong while reading the collection: the Find call fails, the
   * document at position `badDoc` cannot be decoded, or the cursor breaks off
   * (a failed batch fetch) before it delivers the document at `breaksAt`.
   */
  datatype CursorFaults = CursorFaults(findFails: bool, badDoc: Option<nat>, breaksAt: Option<nat>)

  /** The fault position `p` lies among the first `n` documents. */
  predicate Within(p: Option<nat>, n: nat) {
    p.Some? && p.value < n
  }

  /** Reading stops at the cursor break before it reaches an undecodable document. */
  predicate BreaksFirst(faults: CursorFaults, n: nat) {
    Within(faults.breaksAt, n) && (!Within(faults.badDoc, n) || faults.breaksAt.value <= faults.badDoc.value)
  }

  /**
   * The outcome of reading all of `subs` when the end of the loop also asks
   * the cursor for its error: the whole collection, in store order, or an
   * error and no list at all.
   */
  function ReadAll(subs: seq<Subscriber>, faults: CursorFaults): (r: Result<seq<Subscriber>, Error>)
    ensures r.Ok? <==> !faults.findFails && !Within(faults.badDoc, |subs|) && !Within(faults.breaksAt, |subs|)
    ensures r.Ok? ==> r.value == subs
    ensures faults.findFails ==> r == Err(CursorFailed)
    ensures !faults.findFails && BreaksFirst(faults, |subs|) ==> r == Err(CursorFailed)
    ensures !faults.findFails && !BreaksFirst(faults, |subs|) && Within(faults.badDoc, |subs|) ==> r == Err(DecodeFailed)
    ensures r.Err? ==> r.error == CursorFailed || r.error == DecodeFailed
  {
    if faults.findFails then Err(CursorFailed)
    else if BreaksFirst(faults, |subs|) then Err(CursorFailed)
    else if Within(faults.badDoc, |subs|) then Err(DecodeFailed)
    else Ok(subs)
  }

  /**
   * The outcome of the loop as the source writes it, without asking the
   * cursor for its error at the end: a cursor that breaks off yields the
   * documents read so far and no error.
   */
  function ReadAllAsWritten(subs: seq<Subscriber>, faults: CursorFaults): (r: Result<seq<Subscriber>, Error>)
    ensures faults.findFails ==> r == Err(CursorFailed)
    ensures r.Ok? ==> |r.value| <= |subs| && r.value == subs[..|r.value|]
    ensures !BreaksFirst(faults, |subs|) ==> r == ReadAll(subs, faults)
    ensures !faults.findFails && BreaksFirst(faults, |subs|) ==> r == Ok(subs[..faults.breaksAt.value])
  {
    if faults.findFails then Err(CursorFailed)
    else if BreaksFirst(faults, |subs|) then Ok(subs[..faults.breaksAt.value])
    else if Within(faults.badDoc, |subs|) then Err(DecodeFailed)
    else Ok(subs)
  }

  /**
   * A cursor that breaks off after `k` of the stored subscribers makes the
   * loop as written report success with only those `k`, where the checked
   * read reports the failure.
   */
  lemma AsWrittenDropsSubscribers(subs: seq<Subscriber>, k: nat)
    requires k < |subs|
    ensures var faults := CursorFaults(false, None, Some(k));
      && ReadAllAsWritten(subs, faults) == Ok(subs[..k])
      && |ReadAllAsWritten(subs, faults).value| < |subs|
      && ReadAll(subs, faults) == Err(CursorFailed)
  {
  }

  class SubscriberStore {
    var subscribers: seq<Subscriber>

    ghost predicate Valid()
      reads this
    {
      UniqueSubscriberIds(subscribers)
    }

    constructor ()
      ensures Valid() && subscribers == []
    {
      subscribers := [];
    }

    /**
     * CreateSubscriber: writes `newId`, the identifier the driver generates,
     * into the caller's subscriber and inserts it; `written` is the caller's
     * subscriber afterwards.
     */
    method CreateSubscriber(sub: Subscriber, newId: ObjectId, writeFails: bool)
      returns (written: Subscriber, err: Option<Error>)
      requires Valid()
      modifies this
      ensures Valid()
      ensures written == sub.(id := newId)
      ensures err == if writeFails then Some(WriteFailed)
                     else if newId in SubscriberIds(old(subscribers)) then Some(DuplicateKey)
                     else None
      ensures subscribers == if err.None? then old(subscribers) + [written] else old(subscribers)
    {
      written := sub.(id := newId);
      if writeFails {
        err := Some(WriteFailed);
      } else if newId in SubscriberIds(subscribers) {
        err := Some(DuplicateKey);
      } else {
        ghost var s := subscribers + [written];
        forall i, j | 0 <= i < j < |s| ensures s[i].id != s[j].id {
          if j == |subscribers| {
            assert s[i] in subscribers;
          }
        }
        subscribers := subscribers + [written];
        err := None;
      }
    }

    /**
     * GetAll with the cursor's error checked after the loop: every stored
     * subscriber once, in store order, or an error and no partial list.
     */
    method GetAll(faults: CursorFaults) returns (r: Result<seq<Subscriber>, Error>)
      ensures r == ReadAll(subscribers, faults)
    {
      if faults.findFails {
        return Err(CursorFailed);
      }
      var acc: seq<Subscriber> := [];
      var i := 0;
      while i < |subscribers| && faults.breaksAt != Some(i)
        invariant 0 <= i <= |subscribers|
        invariant acc == subscribers[..i]
        invariant !Within(faults.breaksAt, i) && !Within(faults.badDoc, i)
      {
        if faults.badDoc == Some(i) {
          return Err(DecodeFailed);
        }
        acc := acc + [subscribers[i]];
        i := i + 1;
      }
      if i < |subscribers| {
        return Err(CursorFailed);
      }
      assert acc == subscribers;
      return Ok(acc);
    }

    /** GetAll as the source writes it: the loop's end is taken as success. */
    method GetAllAsWritten(faults: CursorFaults) returns (r: Result<seq<Subscriber>, Error>)
      ensures r == ReadAllAsWritten(subscribers, faults)
    {
      if faults.findFails {
        return Err(CursorFailed);
      }
      var acc: seq<Subscriber> := [];
      var i := 0;
      while i < |subscribers| && faults.breaksAt != Some(i)
        invariant 0 <= i <= |subscribers|
        invariant acc == subscribers[..i]
        invariant !Within(faults.breaksAt, i) && !Within(faults.badDoc, i)
      {
        if faults.badDoc == Some(i) {
          return Err(DecodeFailed);
        }
        acc := acc + [subscribers[i]];
        i := i + 1;
      }
      return Ok(acc);
    }
  }
}
