// The accumulating node history (src/history.rs), and what it says after any number of crawls.
module History {
  import opened Prelude
  import opened Peers

  // What one crawl lists, and when it was merged.
  datatype Crawl = Crawl(listed: seq<NodeInfo>, now: string)

  function MergeOne(before: Option<NodeInfo>, cur: NodeInfo, now: string): NodeInfo {
    match before
    case Some(existing) =>
      if cur.handshaked then
        cur.(firstSeen := if existing.firstSeen == "" then now else existing.firstSeen,
             lastSeen := now, timesSeen := existing.timesSeen + 1, online := true)
      else existing.(online := false)
    case None =>
      if cur.handshaked then cur.(firstSeen := now, lastSeen := now, timesSeen := 1, online := true)
      else cur.(firstSeen := now, timesSeen := 0, online := false)
  }

  function Lookup(nodes: map<string, NodeInfo>, addr: string): Option<NodeInfo> {
    if addr in nodes then Some(nodes[addr]) else None
  }

  function MergeListed(nodes: map<string, NodeInfo>, listed: seq<NodeInfo>, now: string): map<string, NodeInfo> {
    if listed == [] then nodes
    else
      var before, cur := MergeListed(nodes, listed[..|listed| - 1], now), listed[|listed| - 1];
      before[cur.addr := MergeOne(Lookup(before, cur.addr), cur, now)]
  }

  function Addresses(listed: seq<NodeInfo>): set<string> { set n | n in listed :: n.addr }

  function MarkOffline(nodes: map<string, NodeInfo>, listed: set<string>): map<string, NodeInfo> {
    map a | a in nodes :: if a in listed then nodes[a] else nodes[a].(online := false)
  }

  function MergeCrawl(nodes: map<string, NodeInfo>, crawl: Crawl): map<string, NodeInfo> {
    MarkOffline(MergeListed(nodes, crawl.listed, crawl.now), Addresses(crawl.listed))
  }

  function MergeAll(crawls: seq<Crawl>): map<string, NodeInfo> {
    if crawls == [] then map[] else MergeCrawl(MergeAll(crawls[..|crawls| - 1]), crawls[|crawls| - 1])
  }

  class History {
    var nodes: map<string, NodeInfo>

    constructor ()
      ensures nodes == map[]
    {
      nodes := map[];
    }

    method Merge(current: seq<NodeInfo>, now: string)
      modifies this
      ensures nodes == MergeCrawl(old(nodes), Crawl(current, now))
    {
      var currentAddrs := Addresses(current);
      MergeEach(current, now);
      MarkMissing(currentAddrs);
    }

    // The first loop of merge: every listed node.
    method MergeEach(current: seq<NodeInfo>, now: string)
      modifies this
      ensures nodes == MergeListed(old(nodes), current, now)
    {
      for i := 0 to |current|
        invariant nodes == MergeListed(old(nodes), current[..i], now)
      {
        assert current[..i + 1][..i] == current[..i];
        var cur := current[i];
        if cur.addr in nodes {
          var existing := nodes[cur.addr];
          if cur.handshaked {
            var firstSeen := if existing.firstSeen == "" then now else existing.firstSeen;
            var times := existing.timesSeen + 1;
            nodes := nodes[cur.addr := cur.(firstSeen := firstSeen, lastSeen := now, timesSeen := times, online := true)];
          } else {
            nodes := nodes[cur.addr := existing.(online := false)];
          }
        } else {
          var n := cur.(firstSeen := now);
          if n.handshaked {
            n := n.(lastSeen := now, timesSeen := 1, online := true);
          } else {
            n := n.(timesSeen := 0, online := false);
          }
          nodes := nodes[n.addr := n];
        }
      }
      assert current[..|current|] == current;
    }

    // The second: every record of an address not listed.
    method MarkMissing(currentAddrs: set<string>)
      modifies this
      ensures nodes == MarkOffline(old(nodes), currentAddrs)
    {
      var todo := nodes.Keys;
      while todo != {}
        invariant todo <= nodes.Keys == old(nodes).Keys
        invariant forall a | a in nodes ::
          nodes[a] == (if a in todo || a in currentAddrs then old(nodes)[a] else old(nodes)[a].(online := false))
        decreases todo
      {
        var addr :| addr in todo;
        if addr !in currentAddrs {
          nodes := nodes[addr := nodes[addr].(online := false)];
        }
        todo := todo - {addr};
      }
      assert nodes.Keys == MarkOffline(old(nodes), currentAddrs).Keys;
    }
  }

  // ---- What the history means ----

  // Each address at most once per crawl, and a stamp that is not empty.
  predicate WellFormedCrawl(c: Crawl) {
    && c.now != ""
    && forall i, j | 0 <= i < j < |c.listed| :: c.listed[i].addr != c.listed[j].addr
  }

  // The crawl's record of an address.
  function Listing(listed: seq<NodeInfo>, addr: string): Option<NodeInfo> {
    if listed == [] then None
    else if listed[|listed| - 1].addr == addr then Some(listed[|listed| - 1])
    else Listing(listed[..|listed| - 1], addr)
  }

  predicate Handshook(c: Crawl, addr: string) {
    var n := Listing(c.listed, addr);
    n.Some? && n.value.handshaked
  }

  function HandshookCount(addr: string): Crawl -> nat { (c: Crawl) => if Handshook(c, addr) then 1 else 0 }

  function TimesHandshaken(crawls: seq<Crawl>, addr: string): nat {
    Total(HandshookCount(addr), crawls)
  }

  // The first crawl that listed the address.
  function FirstListed(crawls: seq<Crawl>, addr: string): Option<Crawl> {
    if crawls == [] then None
    else
      var earlier, c := FirstListed(crawls[..|crawls| - 1], addr), crawls[|crawls| - 1];
      if earlier.Some? then earlier
      else if Listing(c.listed, addr).Some? then Some(c)
      else None
  }

  // The last crawl that handshook it.
  function LastHandshake(crawls: seq<Crawl>, addr: string): Option<Crawl> {
    if crawls == [] then None
    else if Handshook(crawls[|crawls| - 1], addr) then Some(crawls[|crawls| - 1])
    else LastHandshake(crawls[..|crawls| - 1], addr)
  }

  // The record the history must hold of an address some crawl listed: what its last handshake said of it, or the
  // first crawl when there was none; first seen when it was first listed; last seen at its last handshake; as often
  // as it was handshaken; online when the latest crawl handshook it.
  function Expected(crawls: seq<Crawl>, addr: string): (r: Option<NodeInfo>) {
    match FirstListed(crawls, addr)
    case None => None
    case Some(first) =>
      var last := LastHandshake(crawls, addr);
      var source := Listing((if last.Some? then last.value else first).listed, addr);
      match source
      case None => None
      case Some(n) =>
        Some(n.(firstSeen := first.now, lastSeen := if last.Some? then last.value.now else n.lastSeen,
                timesSeen := TimesHandshaken(crawls, addr), online := Handshook(crawls[|crawls| - 1], addr)))
  }

  lemma {:induction false} ListingIs(listed: seq<NodeInfo>, addr: string)
    ensures var n := Listing(listed, addr);
      && (n.Some? <==> addr in Addresses(listed))
      && (n.Some? ==> n.value.addr == addr && n.value in listed)
  {
    if listed != [] {
      ListingIs(listed[..|listed| - 1], addr);
      assert listed == listed[..|listed| - 1] + [listed[|listed| - 1]];
    }
  }

  lemma {:induction false} MergeListedAt(nodes: map<string, NodeInfo>, listed: seq<NodeInfo>, now: string, addr: string)
    requires forall i, j | 0 <= i < j < |listed| :: listed[i].addr != listed[j].addr
    ensures var after := MergeListed(nodes, listed, now);
      match Listing(listed, addr)
      case Some(cur) => addr in after && after[addr] == MergeOne(Lookup(nodes, addr), cur, now)
      case None => Lookup(after, addr) == Lookup(nodes, addr)
  {
    if listed != [] {
      var front, cur := listed[..|listed| - 1], listed[|listed| - 1];
      MergeListedAt(nodes, front, now, addr);
      if cur.addr == addr {
        ListingIs(front, addr);
        assert Listing(front, addr).None?;
      }
    }
  }

  // What one more crawl makes of an address's record.
  lemma CrawlMergedAt(nodes: map<string, NodeInfo>, c: Crawl, addr: string)
    requires WellFormedCrawl(c)
    ensures Lookup(MergeCrawl(nodes, c), addr)
         == match Listing(c.listed, addr)
            case Some(cur) => Some(MergeOne(Lookup(nodes, addr), cur, c.now))
            case None =>
              match Lookup(nodes, addr)
              case Some(n) => Some(n.(online := false))
              case None => None
  {
    MergeListedAt(nodes, c.listed, c.now, addr);
    ListingIs(c.listed, addr);
  }

  // The stamps and the source of an expected record exist and are not empty.
  predicate Sound(crawls: seq<Crawl>, addr: string) {
    var first, last := FirstListed(crawls, addr), LastHandshake(crawls, addr);
    && (first.Some? ==> first.value.now != "" && Listing(first.value.listed, addr).Some?)
    && (last.Some? ==> first.Some? && Handshook(last.value, addr))
    && (last.None? ==> TimesHandshaken(crawls, addr) == 0)
    && (first.Some? && last.None? ==> !Listing(first.value.listed, addr).value.handshaked)
  }

  lemma {:induction false} AlwaysSound(crawls: seq<Crawl>, addr: string)
    requires forall c | c in crawls :: WellFormedCrawl(c)
    ensures Sound(crawls, addr)
  {
    if crawls != [] {
      var front, c := crawls[..|crawls| - 1], crawls[|crawls| - 1];
      assert c in crawls && forall x | x in front :: x in crawls;
      AlwaysSound(front, addr);
    }
  }

  lemma ExpectedNext(front: seq<Crawl>, c: Crawl, addr: string)
    requires Sound(front, addr) && WellFormedCrawl(c)
    ensures Expected(front + [c], addr)
         == match Listing(c.listed, addr)
            case Some(cur) => Some(MergeOne(Expected(front, addr), cur, c.now))
            case None =>
              match Expected(front, addr)
              case Some(n) => Some(n.(online := false))
              case None => None
  {
    var crawls := front + [c];
    assert crawls[..|crawls| - 1] == front;
    assert front == [] ==> FirstListed(front, addr).None? && LastHandshake(front, addr).None?;
    match Listing(c.listed, addr) {
      case None =>
      case Some(cur) =>
        if cur.handshaked {} else {}
    }
  }

  // After any crawls, merged in order from an empty history, the record of every address is the expected one.
  lemma {:induction false} HistoryIs(crawls: seq<Crawl>, addr: string)
    requires forall c | c in crawls :: WellFormedCrawl(c)
    ensures Lookup(MergeAll(crawls), addr) == Expected(crawls, addr)
  {
    if crawls != [] {
      var front, c := crawls[..|crawls| - 1], crawls[|crawls| - 1];
      assert crawls == front + [c];
      assert c in crawls && forall x | x in front :: x in crawls;
      HistoryIs(front, addr);
      AlwaysSound(front, addr);
      CrawlMergedAt(MergeAll(front), c, addr);
      ExpectedNext(front, c, addr);
    }
  }

  // No address ever disappears.
  lemma NeverForgotten(crawls: seq<Crawl>, c: Crawl)
    ensures MergeAll(crawls).Keys <= MergeAll(crawls + [c]).Keys
  {
    assert (crawls + [c])[..|crawls|] == crawls;
    MergeListedGrows(MergeAll(crawls), c.listed, c.now);
  }

  lemma {:induction false} MergeListedGrows(nodes: map<string, NodeInfo>, listed: seq<NodeInfo>, now: string)
    ensures nodes.Keys <= MergeListed(nodes, listed, now).Keys
  {
    if listed != [] { MergeListedGrows(nodes, listed[..|listed| - 1], now); }
  }
}
