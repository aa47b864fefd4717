/** From client requests at the exchange to the book a client trades on. */
module EndToEnd {
  import opened Common
  import opened Matching
  import opened BookInvariant
  import opened Replica
  import opened UpdateStream
  import opened Venue
  import opened Snapshot
  import opened Recovery
  import opened Bbo
  import opened Downstream
  import opened Anchors
  import opened Anchored
  import opened Comparing
  import opened Fits
  import opened Following

  /** Updates that name an order name one older than `next`. */
  ghost predicate NamesBelow(us: seq<Update>, next: nat) {
    forall i :: 0 <= i < |us| && us[i].kind != TRADE ==> us[i].oid < next
  }

  lemma {:induction false} MatchNamesBelow(t: nat, inc: BookOrder, opp: seq<BookOrder>, next: nat)
    requires Older(opp, next)
    ensures NamesBelow(MatchAll(t, inc, opp).updates, next)
    decreases |opp|
  {
    if inc.qty == 0 || opp == [] || !Crosses(inc.side, inc.price, opp[0].price) {
    } else if inc.qty >= opp[0].qty {
      MatchNamesBelow(t, inc.(qty := inc.qty - opp[0].qty), opp[1..], next);
    }
  }

  /** A request uses up at most one order id, and names only ids in use. */
  lemma ProcessNamesBelow(b: Book, r: Request)
    requires Good(b) && Admissible(b, r)
    ensures var s := Process(b, r);
            b.nextOid <= s.book.nextOid <= b.nextOid + 1 && NamesBelow(s.updates, s.book.nextOid)
  {
    hide MatchAll, Lookup, Facing;
    match r.kind
    case NEW =>
      GoodFromEither(b, Opposite(r.side));
      MatchNamesBelow(r.ticker, Incoming(b, r.ref, r.side, r.price, r.qty), b.On(Opposite(r.side)), b.nextOid);
    case CANCEL =>
      if Lookup(b, r.ref).Some? {
        var k := LookupFinds(b, r.ref);
      }
  }

  /** Order ids stay below the number of requests served. */
  lemma {:induction false} IdsStaySmall(rs: seq<Request>)
    requires Accepted(rs)
    ensures |ServeAll(rs).books| == ME_MAX_TICKERS && NamesBelow(ServeAll(rs).log, |rs| + 1)
    ensures forall t: nat :: t < ME_MAX_TICKERS ==> ServeAll(rs).books[t].nextOid <= |rs| + 1
    ensures forall i :: 0 <= i < |ServeAll(rs).log| ==> ServeAll(rs).log[i].ticker < ME_MAX_TICKERS
    decreases |rs|
  {
    if rs != [] {
      var before, r := rs[..|rs| - 1], rs[|rs| - 1];
      IdsStaySmall(before);
      LogDescribesBooks(before);
      var b := ServeAll(before).books[r.ticker];
      assert Described(ServeAll(before), r.ticker);
      ProcessNamesBelow(b, r);
      ProcessTicker(b, r);
    }
  }

  /** What the exchange sends is a log a client can follow, as long as the order ids fit. */
  lemma LogIsLegal(rs: seq<Request>)
    requires Accepted(rs) && |rs| < ME_MAX_ORDER_IDS
    ensures LegalLog(ServeAll(rs).log)
  {
    IdsStaySmall(rs);
    LogDescribesBooks(rs);
    forall t: nat | t < ME_MAX_TICKERS
      ensures LegalFrom(t, EMPTY_VIEW, ServeAll(rs).log)
    {
      assert Described(ServeAll(rs), t);
    }
  }

  /** A client whose output is safe and has a source, and that is not recovering and has caught up with
      the numbering, has passed on updates that rebuild exactly the exchange's book of every instrument;
      its cached best bid and offer are the top of that book, and the book is not crossed. */
  lemma CaughtUp(rs: seq<Request>, c: Consumer, t: nat)
    requires Accepted(rs) && |rs| < ME_MAX_ORDER_IDS && t < ME_MAX_TICKERS
    requires Safe(ServeAll(rs).log, c) && Traced(ServeAll(rs).log, c)
    requires !c.inRecovery && c.nextExp == |ServeAll(rs).log| + 1
    ensures |ServeAll(rs).books| == ME_MAX_TICKERS && SeesBook(c, t, ServeAll(rs).books[t])
  {
    hide SourcedFrom, LegalLog, ApplicableFrom, LegalFrom, Matching.Process, BBO.Matches;
    var log := ServeAll(rs).log;
    LogIsLegal(rs);
    LogDescribesBooks(rs);
    TracedIsUsable(log, c);
    CacheFollowsStream(t, c.out);
    assert log[..|log|] == log;
    assert Described(ServeAll(rs), t);
    NeverCrossed(rs, t, 0, 0);
  }

  /** The client's stream leads to book `b`, and its cached best prices are those of `b`. */
  ghost predicate SeesBook(c: Consumer, t: nat, b: Book) {
    && Replay(t, c.out) == Outside(b)
    && CacheAfter(t, c.out).Matches(Outside(b), BUY)
    && CacheAfter(t, c.out).Matches(Outside(b), SELL)
    && (b.bids != [] && b.asks != [] ==> b.bids[0].price < b.asks[0].price)
  }

  /** The client's pointer book can apply the stream: every order it changes is there, and for every
      order that is added, inside snapshots too, it has a price slot and a free block. These are the
      demands of `MarketOrderBook.Follow`. */
  ghost predicate CanFollow(c: Consumer, t: nat) {
    ApplicableFrom(t, EMPTY_VIEW, c.out) && FittingFrom(t, EMPTY_VIEW, c.out)
  }

  lemma TracedCanFollow(rs: seq<Request>, c: Consumer, t: nat)
    requires Placed(rs) && |rs| < ME_MAX_ORDER_IDS && t < ME_MAX_TICKERS && Traced(ServeAll(rs).log, c)
    ensures CanFollow(c, t)
  {
    hide Traced, LegalLog, Placed, ApplicableFrom, FittingFrom, ServeAll;
    PlacedIsAccepted(rs);
    LogIsLegal(rs);
    TracedIsUsable(ServeAll(rs).log, c);
    TracedFits(rs, c, t);
  }

  /** End to end: after any requests the exchange accepts, over any network that loses, repeats and
      reorders messages as long as each snapshot that looks whole comes from one publication, a client
      that has caught up sees exactly the exchange's book. */
  lemma ClientSeesExchange(rs: seq<Request>, ds: seq<Delivery>, t: nat)
    requires Accepted(rs) && |rs| < ME_MAX_ORDER_IDS && t < ME_MAX_TICKERS
    requires PlausibleRun(ServeAll(rs).log, ds)
    requires !ReceiveAll(ds).inRecovery && ReceiveAll(ds).nextExp == |ServeAll(rs).log| + 1
    ensures |ServeAll(rs).books| == ME_MAX_TICKERS && SeesBook(ReceiveAll(ds), t, ServeAll(rs).books[t])
  {
    hide Safe, Traced, LegalLog, PlausibleRun, Accepted, SeesBook;
    LogIsLegal(rs);
    RecoveryIsSafe(ServeAll(rs).log, ds);
    OutputIsTraced(ServeAll(rs).log, ds);
    CaughtUp(rs, ReceiveAll(ds), t);
  }

  /** The same for the code as written, over a network that loses and repeats messages but keeps their
      order, in runs in which the two anchors of every snapshot that looks whole agree. */
  lemma AnchoredClientSeesExchange(rs: seq<Request>, bs: seq<Batch>, t: nat)
    requires Accepted(rs) && |rs| < ME_MAX_ORDER_IDS && t < ME_MAX_TICKERS
    requires AllUniform(bs) && InOrderRun(ServeAll(rs).log, Heard(bs)) && AnchoredRun(Heard(bs))
    requires var c := ReceiveAll(Deliveries(bs)); !c.inRecovery && c.nextExp == |ServeAll(rs).log| + 1
    ensures |ServeAll(rs).books| == ME_MAX_TICKERS && SeesBook(ReceiveAll(Deliveries(bs)), t, ServeAll(rs).books[t])
  {
    hide Safe, Traced, LegalLog, Accepted, InOrderRun, AnchoredRun, SeesBook;
    LogIsLegal(rs);
    AnchoredDeliveries(ServeAll(rs).log, bs);
    CaughtUp(rs, ReceiveAll(Deliveries(bs)), t);
  }

  /** Over any such network, recovering or not, the client's pointer book can apply everything it is
      handed, if the exchange had a place for every order that came to rest. */
  lemma ClientCanFollow(rs: seq<Request>, ds: seq<Delivery>, t: nat)
    requires Placed(rs) && |rs| < ME_MAX_ORDER_IDS && t < ME_MAX_TICKERS
    requires PlausibleRun(ServeAll(rs).log, ds)
    ensures CanFollow(ReceiveAll(ds), t)
  {
    hide Traced, LegalLog, Placed, PlausibleRun, CanFollow, ServeAll;
    PlacedIsAccepted(rs);
    LogIsLegal(rs);
    OutputIsTraced(ServeAll(rs).log, ds);
    TracedCanFollow(rs, ReceiveAll(ds), t);
  }

  /** A client that compares the two anchors, and gives up a snapshot in which they differ, sees exactly
      the exchange's book once it has caught up, over every run of a network that loses and repeats
      messages but keeps their order. */
  lemma ComparingClientSeesExchange(rs: seq<Request>, bs: seq<Batch>, t: nat)
    requires Accepted(rs) && |rs| < ME_MAX_ORDER_IDS && t < ME_MAX_TICKERS
    requires AllUniform(bs) && ComparingInOrder(ServeAll(rs).log, HeardComparing(bs))
    requires var c := ReceiveAllComparing(Deliveries(bs)); !c.inRecovery && c.nextExp == |ServeAll(rs).log| + 1
    ensures |ServeAll(rs).books| == ME_MAX_TICKERS
    ensures SeesBook(ReceiveAllComparing(Deliveries(bs)), t, ServeAll(rs).books[t])
  {
    hide Safe, Traced, Usable, LegalLog, Accepted, ComparingInOrder, SeesBook;
    LogIsLegal(rs);
    ComparingIsSafe(ServeAll(rs).log, bs);
    CaughtUp(rs, ReceiveAllComparing(Deliveries(bs)), t);
  }

  /** And its pointer book can apply everything it is handed, recovering or not. */
  lemma ComparingClientCanFollow(rs: seq<Request>, bs: seq<Batch>, t: nat)
    requires Placed(rs) && |rs| < ME_MAX_ORDER_IDS && t < ME_MAX_TICKERS
    requires AllUniform(bs) && ComparingInOrder(ServeAll(rs).log, HeardComparing(bs))
    ensures CanFollow(ReceiveAllComparing(Deliveries(bs)), t)
  {
    hide Safe, Traced, Usable, LegalLog, Placed, ComparingInOrder, CanFollow, ServeAll;
    PlacedIsAccepted(rs);
    LogIsLegal(rs);
    ComparingIsSafe(ServeAll(rs).log, bs);
    TracedCanFollow(rs, ReceiveAllComparing(Deliveries(bs)), t);
  }

  lemma AnchoredClientCanFollow(rs: seq<Request>, bs: seq<Batch>, t: nat)
    requires Placed(rs) && |rs| < ME_MAX_ORDER_IDS && t < ME_MAX_TICKERS
    requires AllUniform(bs) && InOrderRun(ServeAll(rs).log, Heard(bs)) && AnchoredRun(Heard(bs))
    ensures CanFollow(ReceiveAll(Deliveries(bs)), t)
  {
    hide Safe, Traced, LegalLog, Placed, InOrderRun, AnchoredRun, CanFollow, ServeAll;
    PlacedIsAccepted(rs);
    LogIsLegal(rs);
    AnchoredDeliveries(ServeAll(rs).log, bs);
    TracedCanFollow(rs, ReceiveAll(Deliveries(bs)), t);
  }
}
