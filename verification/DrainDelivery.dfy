/** What the sink has received, compared with what the table says, in every run. */
module DrainDelivery {
  import opened Common
  import opened OutboxTable
  import opened RetryPolicy
  import opened DrainProtocol
  import opened DrainSafety

  /** No step removes a row or changes its payload, topic or key. */
  lemma {:induction false} RowsStay(tr: Trace, later: Trace)
    requires Feasible(later) && Within(tr, later)
    ensures Feasible(tr) && Grows(After(tr).table, After(later).table)
  {
    if tr != later {
      RowsStay(tr, later.prev);
      StepGrows(After(later.prev), later.event);
    }
  }

  /** Publisher `p` knows that the sink took `id` and has not said so yet. */
  predicate Unmarked(s: State, p: nat, id: Uuid) {
    Busy(s, p) && id in s.publishers[p].published
  }

  ghost predicate MarksWereSent(tr: Trace)
    requires Feasible(tr)
  {
    && (forall p: nat, id :: Unmarked(After(tr), p, id) ==> OwnSends(tr, id) >= 1)
    && (forall id :: id in After(tr).table && After(tr).table[id].status.Published? ==> OwnSends(tr, id) >= 1)
  }

  lemma {:induction false} AlwaysMarksWereSent(tr: Trace)
    requires Feasible(tr)
    ensures MarksWereSent(tr)
  {
    if tr.Extend? {
      AlwaysMarksWereSent(tr.prev);
      AlwaysInv(tr.prev);
      var s, e := After(tr.prev), tr.event;
      if e.Write? {
        assert PublisherOk(s.table, s.publishers[e.p], s.config.policy);
      }
      forall p: nat, id | Unmarked(After(tr), p, id)
        ensures OwnSends(tr, id) >= 1
      {
        assert Unmarked(s, p, id) || OwnSend(s, e, id);
      }
      if e.MarkBatch? {
        forall id | id in Markable(s.table, s.publishers[e.p].published)
          ensures OwnSends(tr, id) >= 1
        {
          assert Unmarked(s, e.p, id);
        }
      }
    }
  }

  /** Main result: a `published` row really was accepted by the sink. */
  lemma {:induction false} PublishedWasSent(tr: Trace, id: Uuid)
    requires Feasible(tr) && id in After(tr).table && After(tr).table[id].status.Published?
    ensures OwnSends(tr, id) >= 1
  {
    AlwaysMarksWereSent(tr);
  }

  ghost predicate Faithful(table: Table, o: Offer, policy: Policy) {
    && o.id in table
    && o.message.key == table[o.id].content.partitionKey
    && o.message.payload == table[o.id].content.payload
    && o.message.topic == (if o.deadLetter then policy.dlqTopic else table[o.id].content.topic)
    && (o.deadLetter ==> policy.enableDlq && table[o.id].retryCount >= policy.maxRetries)
  }

  /** Main result: whatever the sink is offered is the stored payload under the
      stored key, on the row's own topic or, once its retries are used up, on the
      dead-letter topic. */
  lemma {:induction false} OffersFaithful(tr: Trace)
    requires Feasible(tr)
    ensures forall o :: o in Offers(tr) ==> Faithful(After(tr).table, o, After(tr).config.policy)
  {
    if tr.Extend? {
      OffersFaithful(tr.prev);
      AlwaysInv(tr.prev);
      StepGrows(After(tr.prev), tr.event);
      var s, e := After(tr.prev), tr.event;
      forall o | o in Offers(tr)
        ensures Faithful(After(tr).table, o, After(tr).config.policy)
      {
        if o in Offers(tr.prev) {
          assert Faithful(s.table, o, s.config.policy);
        } else {
          assert o in Offered(s, e);
          assert PublisherOk(s.table, s.publishers[e.p], s.config.policy);
          assert e.Send? ==> ClaimOk(s.table, s.publishers[e.p].todo[0]);
        }
      }
    }
  }

  ghost predicate CopyOffered(os: seq<Offer>, id: Uuid) {
    exists o :: o in os && o.id == id && o.deadLetter
  }

  predicate OwesDlq(s: State, p: nat, id: Uuid) {
    Busy(s, p) && s.publishers[p].debt == SetStatus(id, Dlq)
  }

  ghost predicate CopiesOffered(tr: Trace)
    requires Feasible(tr)
  {
    var s := After(tr);
    && (forall id :: id in s.table && s.table[id].status.Dlq? ==> CopyOffered(Offers(tr), id))
    && (forall p: nat, id :: OwesDlq(s, p, id) ==> CopyOffered(Offers(tr), id))
  }

  /** Only sending the copy makes a publisher owe the status, and only writing it
      gives it to a row. */
  lemma DlqComesFromCopy(s: State, e: Event, p: nat, id: Uuid)
    requires Enabled(s, e)
    ensures OwesDlq(Apply(s, e), p, id) ==>
              OwesDlq(s, p, id) || (e.SendDeadLetter? && s.publishers[e.p].debt.claim.id == id)
    ensures id in Apply(s, e).table && Apply(s, e).table[id].status.Dlq? ==>
              (id in s.table && s.table[id].status.Dlq?) || (e.Write? && OwesDlq(s, e.p, id))
  {
  }

  lemma {:induction false} AlwaysCopiesOffered(tr: Trace)
    requires Feasible(tr)
    ensures CopiesOffered(tr)
  {
    if tr.Extend? {
      AlwaysCopiesOffered(tr.prev);
      var s, e := After(tr.prev), tr.event;
      forall id | CopyOffered(Offers(tr.prev), id) ensures CopyOffered(Offers(tr), id) {
        var o :| o in Offers(tr.prev) && o.id == id && o.deadLetter;
        assert o in Offers(tr);
      }
      forall p: nat, id | OwesDlq(After(tr), p, id) ensures CopyOffered(Offers(tr), id) {
        DlqComesFromCopy(s, e, p, id);
        if !OwesDlq(s, p, id) {
          assert Offered(s, e)[0] in Offers(tr);
        }
      }
      forall id | id in After(tr).table && After(tr).table[id].status.Dlq?
        ensures CopyOffered(Offers(tr), id)
      {
        DlqComesFromCopy(s, e, 0, id);
      }
    }
  }

  /** Main result: before a row is given the status `dlq` its dead-letter copy has been
      offered to the sink. Whether the sink took it is another matter. */
  lemma {:induction false} DlqRowsWereOffered(tr: Trace, id: Uuid)
    requires Feasible(tr) && id in After(tr).table && After(tr).table[id].status.Dlq?
    ensures CopyOffered(Offers(tr), id)
  {
    AlwaysCopiesOffered(tr);
  }

  /** Accepted offers of a row, with or without its dead-letter copies. */
  function AcceptedOffers(os: seq<Offer>, id: Uuid, copies: bool): nat {
    if os == [] then 0
    else
      AcceptedOffers(os[..|os| - 1], id, copies) + One(Counts(os[|os| - 1], id, copies))
  }

  predicate Counts(o: Offer, id: Uuid, copies: bool) {
    o.id == id && o.outcome.Accepted? && (copies || !o.deadLetter)
  }

  lemma OneMoreOffer(os: seq<Offer>, o: Offer, id: Uuid, copies: bool)
    ensures AcceptedOffers(os + [o], id, copies) == AcceptedOffers(os, id, copies) + One(Counts(o, id, copies))
  {
    assert (os + [o])[..|os|] == os;
  }

  lemma StepOffers(os: seq<Offer>, s: State, e: Event, id: Uuid)
    requires Enabled(s, e)
    ensures AcceptedOffers(os + Offered(s, e), id, false) == AcceptedOffers(os, id, false) + One(OwnSend(s, e, id))
    ensures AcceptedOffers(os + Offered(s, e), id, true) == AcceptedOffers(os, id, true) + One(Acceptance(s, e, id))
  {
    if e.Send? || e.SendDeadLetter? {
      OneMoreOffer(os, Offered(s, e)[0], id, false);
      OneMoreOffer(os, Offered(s, e)[0], id, true);
    } else {
      assert os + Offered(s, e) == os;
    }
  }

  /** The counters of the send budget count entries of the sink's log. */
  lemma {:induction false} AcceptancesAreOffers(tr: Trace, id: Uuid)
    requires Feasible(tr)
    ensures OwnSends(tr, id) == AcceptedOffers(Offers(tr), id, false)
    ensures Acceptances(tr, id) == AcceptedOffers(Offers(tr), id, true)
  {
    if tr.Extend? {
      AcceptancesAreOffers(tr.prev, id);
      StepOffers(Offers(tr.prev), After(tr.prev), tr.event, id);
    }
  }
}
