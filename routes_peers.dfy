// GET /api/routers/{id}/peers and POST /api/routers/{id}/peers/import: the
// live peer listing with its online flag and stored id, and the import that
// adds live peers to the database or updates their selection.
module PeerRoutes {
  import opened Wrappers
  import opened PyValues
  import opened ClientBase
  import opened Http
  import opened Store
  import opened Scheduler

  // ---------------------------------------------------------------------------
  // Online flag

  /** A peer is online when its last handshake is known, non-zero and no
      older than the threshold. */
  predicate Online(lastHandshake: Option<int>, threshold: int) {
    lastHandshake.Some? && lastHandshake.value != 0 && lastHandshake.value <= threshold
  }

  /** A handshake age as RouterOS prints it ("1m20s") makes the peer online
      exactly when it adds up to a positive age within the threshold. */
  lemma OnlineOfDuration(parts: seq<UnitAmount>, threshold: int)
    requires forall i | 0 <= i < |parts| :: IsUnit(parts[i].unit)
    ensures Online(LastHandshake(PStr(RenderDuration(parts))), threshold)
        <==> 0 < WeightedSeconds(parts) <= threshold
  {
    HandshakeOfRenderedDuration(parts);
  }

  /** A handshake age given as a plain number of seconds makes the peer
      online exactly when it is positive and within the threshold. */
  lemma OnlineOfSeconds(t: string, threshold: int)
    requires IsDigitString(t)
    ensures Online(LastHandshake(PStr(t)), threshold) <==> 0 < DigitsValue(t) <= threshold
  {
    HandshakeOfDigitText(t);
  }

  /** No handshake, an empty one, a zero and a zero duration all leave the
      peer offline whatever the threshold. */
  lemma NeverHandshakenIsOffline(threshold: int)
    ensures !Online(LastHandshake(PNone), threshold)
    ensures !Online(LastHandshake(PStr("")), threshold)
    ensures !Online(LastHandshake(PInt(0)), threshold)
    ensures !Online(LastHandshake(PBool(false)), threshold)
    ensures !Online(LastHandshake(PStr("0s")), threshold)
    ensures !Online(LastHandshake(PStr(" 0 ")), threshold)
  {
    ZeroDurationIsNoHandshake();
    PaddedZeroIsZero();
  }

  // ---------------------------------------------------------------------------
  // Stored peers

  predicate StoredAs(peers: map<int, PeerRow>, id: int, routerId: int, iface: string, key: string) {
    id in peers && peers[id].routerId == routerId && peers[id].interface == iface && peers[id].publicKey == key
  }

  /** The id of the stored peer with the unique key, if any. */
  function PeerIdOf(peers: map<int, PeerRow>, routerId: int, iface: string, key: string): (r: Option<int>)
    requires UniquePeerKeys(peers)
    ensures r.Some? ==> StoredAs(peers, r.value, routerId, iface, key)
    ensures r.None? ==> forall id | id in peers :: !StoredAs(peers, id, routerId, iface, key)
  {
    if exists id | id in peers :: StoredAs(peers, id, routerId, iface, key) then
      var id :| id in peers && StoredAs(peers, id, routerId, iface, key);
      Some(id)
    else None
  }

  // ---------------------------------------------------------------------------
  // list_peers

  datatype PeerView = PeerView(
    id: Option<int>, interface: string, name: string, publicKey: string, allowedAddress: string,
    disabled: bool, endpoint: string, lastHandshake: Option<int>, online: bool)

  /** The entry `list_peers` answers with for one live peer. */
  function ViewOf(peers: map<int, PeerRow>, routerId: int, iface: string, p: WGPeer, threshold: int): PeerView
    requires UniquePeerKeys(peers)
  {
    PeerView(PeerIdOf(peers, routerId, iface, p.publicKey), p.interface, p.name, p.publicKey,
             p.allowedAddress, p.disabled, p.endpoint, p.lastHandshake, Online(p.lastHandshake, threshold))
  }

  /** `list_peers`: an unknown router is a 404 and a failed listing a 502;
      otherwise one entry per live peer of the interface, in listing order,
      each on that interface and carrying the id of the stored peer with its
      key, if there is one. */
  method ListPeers(db: Database, routerId: int, iface: string, threshold: int,
                   fetch: (RouterRow, string) -> Result<seq<Row>, ClientError>)
    returns (r: Result<seq<PeerView>, HttpError>)
    requires db.Valid()
    ensures routerId !in db.routers ==> r.Failure? && r.error.status == NotFound
    ensures routerId in db.routers && GroupListing(fetch, db.routers[routerId], iface).Failure? ==>
      r.Failure? && r.error.status == BadGateway
    ensures routerId in db.routers && GroupListing(fetch, db.routers[routerId], iface).Success? ==> r.Success?
    ensures r.Success? ==>
      && routerId in db.routers
      && var live := GroupListing(fetch, db.routers[routerId], iface);
      && live.Success? && |r.value| == |live.value|
      && forall i | 0 <= i < |r.value| ::
           && r.value[i] == ViewOf(db.peers, routerId, iface, live.value[i], threshold)
           && r.value[i].interface == iface
           && (r.value[i].id.Some? ==> StoredAs(db.peers, r.value[i].id.value, routerId, iface, r.value[i].publicKey))
  {
    if routerId !in db.routers {
      return Failure(HttpError(NotFound, "router not found"));
    }
    var listing := ListWireguardPeers(fetch(db.routers[routerId], iface), iface);
    if listing.Failure? {
      return Failure(HttpError(BadGateway, "router connection failed"));
    }
    var rows := listing.value;
    ghost var rawRows := fetch(db.routers[routerId], iface).value;
    ListedPeersOnInterface(rawRows, iface);
    var out: seq<PeerView> := [];
    for i := 0 to |rows|
      invariant |out| == i
      invariant forall j | 0 <= j < i :: out[j] == ViewOf(db.peers, routerId, iface, rows[j], threshold)
    {
      var p := rows[i];
      var online := false;
      if p.lastHandshake.Some? && p.lastHandshake.value != 0 {
        online := p.lastHandshake.value <= threshold;
      }
      var existing := PeerIdOf(db.peers, routerId, iface, p.publicKey);
      out := out + [PeerView(existing, p.interface, p.name, p.publicKey, p.allowedAddress,
                             p.disabled, p.endpoint, p.lastHandshake, online)];
    }
    return Success(out);
  }

  // ---------------------------------------------------------------------------
  // import_peers

  datatype ImportItem = ImportItem(interface: string, publicKey: string, selected: bool)

  function ItemInterfaces(items: seq<ImportItem>): set<string> {
    set i | 0 <= i < |items| :: items[i].interface
  }

  /** Every listed peer is on the interface it is listed under. */
  predicate ListedOn(listings: map<string, seq<WGPeer>>) {
    forall i, k | i in listings && 0 <= k < |listings[i]| :: listings[i][k].interface == i
  }

  /** The successful listings of the items' interfaces. */
  function Listings(fetch: (RouterRow, string) -> Result<seq<Row>, ClientError>, router: RouterRow,
                    items: seq<ImportItem>): map<string, seq<WGPeer>>
  {
    map i | i in ItemInterfaces(items) && GroupListing(fetch, router, i).Success? :: GroupListing(fetch, router, i).value
  }

  /** The live peer an item names: the last one listed on its interface with
      its public key. */
  function LiveOf(listings: map<string, seq<WGPeer>>, it: ImportItem): Option<WGPeer> {
    if it.interface in listings then LiveByKey(listings[it.interface], it.publicKey) else None
  }

  /** The row stored for a newly imported peer. */
  function ImportedRow(routerId: int, lp: WGPeer, selected: bool): PeerRow {
    PeerRow(routerId, lp.interface, lp.rosId, lp.name, lp.publicKey, lp.allowedAddress, "", lp.disabled, selected)
  }

  /** The stored peers after the items' selection updates: an item that is
      live and already stored sets that peer's `selected`, the last such item
      winning. Nothing but `selected` changes and no peer appears or goes. */
  function Reselected(peers: map<int, PeerRow>, routerId: int, listings: map<string, seq<WGPeer>>,
                      items: seq<ImportItem>): (r: map<int, PeerRow>)
    requires UniquePeerKeys(peers)
    ensures r.Keys == peers.Keys
    ensures forall id | id in peers :: r[id] == peers[id].(selected := r[id].selected)
    decreases |items|
  {
    if items == [] then peers
    else
      var before := Reselected(peers, routerId, listings, items[..|items| - 1]);
      var it := items[|items| - 1];
      if LiveOf(listings, it).None? then before
      else match PeerIdOf(peers, routerId, it.interface, it.publicKey)
        case Some(id) => before[id := before[id].(selected := it.selected)]
        case None => before
  }

  /** The rows the items add, in item order: one per item that is live but not
      stored. The stored peers are looked up as they were before the
      request, so an item repeating a new peer adds it again. */
  function NewRows(peers: map<int, PeerRow>, routerId: int, listings: map<string, seq<WGPeer>>,
                   items: seq<ImportItem>): seq<PeerRow>
    requires UniquePeerKeys(peers)
    decreases |items|
  {
    if items == [] then []
    else
      var before := NewRows(peers, routerId, listings, items[..|items| - 1]);
      var it := items[|items| - 1];
      match LiveOf(listings, it)
      case None => before
      case Some(lp) =>
        if PeerIdOf(peers, routerId, it.interface, it.publicKey).Some? then before
        else before + [ImportedRow(routerId, lp, it.selected)]
  }

  /** No two rows share the unique key. */
  predicate DistinctKeys(rows: seq<PeerRow>) {
    forall i, j | 0 <= i < j < |rows| :: !SamePeerKey(rows[i], rows[j])
  }

  /** The peers after the commit: the new rows added in order under
      consecutive fresh ids. */
  function WithRows(peers: map<int, PeerRow>, rows: seq<PeerRow>, first: int): map<int, PeerRow>
    decreases |rows|
  {
    if rows == [] then peers
    else WithRows(peers, rows[..|rows| - 1], first)[first + |rows| - 1 := rows[|rows| - 1]]
  }

  /** A fresh id holds its new row; every other id keeps its stored peer. */
  lemma {:induction false} WithRowsAt(peers: map<int, PeerRow>, rows: seq<PeerRow>, first: int, id: int)
    ensures var m := WithRows(peers, rows, first);
      && (first <= id < first + |rows| ==> id in m && m[id] == rows[id - first])
      && (!(first <= id < first + |rows|) ==> (id in m <==> id in peers) && (id in peers ==> m[id] == peers[id]))
    decreases |rows|
  {
    if rows != [] {
      var init := rows[..|rows| - 1];
      WithRowsAt(peers, init, first, id);
      if first <= id < first + |init| {
        assert rows[id - first] == init[id - first];
      }
    }
  }

  /** Every row is the router's and no stored peer has its key. */
  predicate RowsAreNew(peers: map<int, PeerRow>, routerId: int, rows: seq<PeerRow>)
    requires UniquePeerKeys(peers)
  {
    forall k | 0 <= k < |rows| ::
      && rows[k].routerId == routerId
      && PeerIdOf(peers, routerId, rows[k].interface, rows[k].publicKey).None?
  }

  /** A new row holds the item's own interface and key, and no stored peer
      has that key. */
  lemma {:induction false} NewRowsAreNew(peers: map<int, PeerRow>, routerId: int,
                                         listings: map<string, seq<WGPeer>>, items: seq<ImportItem>)
    requires UniquePeerKeys(peers)
    requires ListedOn(listings)
    ensures RowsAreNew(peers, routerId, NewRows(peers, routerId, listings, items))
    decreases |items|
  {
    if items != [] {
      var init := items[..|items| - 1];
      NewRowsAreNew(peers, routerId, listings, init);
      var before := NewRows(peers, routerId, listings, init);
      var it := items[|items| - 1];
      var lo := LiveOf(listings, it);
      if lo.Some? && PeerIdOf(peers, routerId, it.interface, it.publicKey).None? {
        LiveByKeyIsLast(listings[it.interface], it.publicKey);
        var i :| 0 <= i < |listings[it.interface]| && listings[it.interface][i] == lo.value
          && listings[it.interface][i].publicKey == it.publicKey
          && forall j | i < j < |listings[it.interface]| :: listings[it.interface][j].publicKey != it.publicKey;
        assert listings[it.interface][i].interface == it.interface;
        var row := ImportedRow(routerId, lo.value, it.selected);
        assert row.interface == it.interface && row.publicKey == it.publicKey;
        var rows := NewRows(peers, routerId, listings, items);
        assert rows == before + [row];
        forall k | 0 <= k < |rows|
          ensures rows[k].routerId == routerId
          ensures PeerIdOf(peers, routerId, rows[k].interface, rows[k].publicKey).None?
        {
          if k < |before| {
            assert rows[k] == before[k];
          }
        }
      } else {
        assert NewRows(peers, routerId, listings, items) == before;
      }
    }
  }

  /** Every item that is live but not stored has its row among the new rows. */
  lemma {:induction false} NewRowsCoverItems(peers: map<int, PeerRow>, routerId: int,
                                             listings: map<string, seq<WGPeer>>, items: seq<ImportItem>, j: int)
    requires UniquePeerKeys(peers)
    requires 0 <= j < |items|
    requires LiveOf(listings, items[j]).Some?
    requires PeerIdOf(peers, routerId, items[j].interface, items[j].publicKey).None?
    ensures ImportedRow(routerId, LiveOf(listings, items[j]).value, items[j].selected)
            in NewRows(peers, routerId, listings, items)
    decreases |items|
  {
    var init := items[..|items| - 1];
    var rows := NewRows(peers, routerId, listings, items);
    var before := NewRows(peers, routerId, listings, init);
    if j == |items| - 1 {
      assert rows == before + [ImportedRow(routerId, LiveOf(listings, items[j]).value, items[j].selected)];
    } else {
      assert init[j] == items[j];
      NewRowsCoverItems(peers, routerId, listings, init, j);
      var it := items[|items| - 1];
      if LiveOf(listings, it).Some? && PeerIdOf(peers, routerId, it.interface, it.publicKey).None? {
        assert rows == before + [ImportedRow(routerId, LiveOf(listings, it).value, it.selected)];
      } else {
        assert rows == before;
      }
    }
  }

  /** The stored peers keep the unique key after the commit when the new rows
      have distinct keys and the fresh ids lie above every stored id; the
      last fresh id is the largest. */
  lemma CommitKeepsKeysUnique(peers: map<int, PeerRow>, routerId: int,
                              listings: map<string, seq<WGPeer>>, items: seq<ImportItem>, first: int)
    requires UniquePeerKeys(peers)
    requires ListedOn(listings)
    requires forall id | id in peers :: id < first
    requires DistinctKeys(NewRows(peers, routerId, listings, items))
    ensures var after := WithRows(Reselected(peers, routerId, listings, items), NewRows(peers, routerId, listings, items), first);
      && UniquePeerKeys(after)
      && forall id | id in after :: id < first + |NewRows(peers, routerId, listings, items)|
  {
    var rows := NewRows(peers, routerId, listings, items);
    var re := Reselected(peers, routerId, listings, items);
    var after := WithRows(re, rows, first);
    forall id | id in after ensures id < first + |rows| {
      WithRowsAt(re, rows, first, id);
    }
    NewRowsAreNew(peers, routerId, listings, items);
    forall a, b | a in after && b in after && SamePeerKey(after[a], after[b]) ensures a == b {
      WithRowsAt(re, rows, first, a);
      WithRowsAt(re, rows, first, b);
      if a in peers && b in peers {
        assert SamePeerKey(peers[a], peers[b]);
      }
    }
  }

  /** Live map lookups: `live.get((iface, key))`. */
  function LiveAt(live: map<(string, string), WGPeer>, iface: string, key: string): Option<WGPeer> {
    if (iface, key) in live then Some(live[(iface, key)]) else None
  }

  /** One `for p in client.list_wireguard_peers(iface)` pass of the import:
      every listed key of the interface now maps to the last listed peer
      with it. */
  method AddListing(live: map<(string, string), WGPeer>, iface: string, peers: seq<WGPeer>)
    returns (live2: map<(string, string), WGPeer>)
    ensures forall i, key ::
              LiveAt(live2, i, key)
              == if i == iface && LiveByKey(peers, key).Some? then LiveByKey(peers, key) else LiveAt(live, i, key)
  {
    live2 := live;
    for n := 0 to |peers|
      invariant forall i, key ::
                  LiveAt(live2, i, key)
                  == if i == iface && LiveByKey(peers[..n], key).Some? then LiveByKey(peers[..n], key) else LiveAt(live, i, key)
    {
      var prefix := peers[..n + 1];
      assert prefix[..n] == peers[..n] && prefix[|prefix| - 1] == peers[n];
      var next := live2[(iface, peers[n].publicKey) := peers[n]];
      forall i, key
        ensures LiveAt(next, i, key)
                == if i == iface && LiveByKey(prefix, key).Some? then LiveByKey(prefix, key) else LiveAt(live, i, key)
      {
        if i == iface && key == peers[n].publicKey {
          assert LiveByKey(prefix, key) == Some(peers[n]);
        } else {
          assert LiveAt(next, i, key) == LiveAt(live2, i, key);
          assert i == iface ==> LiveByKey(prefix, key) == LiveByKey(peers[..n], key);
        }
      }
      live2 := next;
    }
    assert peers[..|peers|] == peers;
  }

  /** The listing pass of `import_peers`: each interface is listed once, and
      the live map keys every listed peer by interface and public key, the
      last listed peer with a key winning. It stops at the first failed
      listing. */
  method ListInterfaces(fetch: (RouterRow, string) -> Result<seq<Row>, ClientError>, router: RouterRow,
                        interfaces: set<string>)
    returns (ok: bool, live: map<(string, string), WGPeer>, ghost listings: map<string, seq<WGPeer>>)
    ensures ok <==> forall i | i in interfaces :: GroupListing(fetch, router, i).Success?
    ensures ok ==> listings.Keys == interfaces
    ensures ok ==> forall i | i in listings :: GroupListing(fetch, router, i) == Success(listings[i])
    ensures ok ==> forall i, key :: LiveAt(live, i, key) == if i in listings then LiveByKey(listings[i], key) else None
  {
    live := map[];
    listings := map[];
    var pending := interfaces;
    while pending != {}
      invariant pending <= interfaces
      invariant listings.Keys == interfaces - pending
      invariant forall i | i in listings :: GroupListing(fetch, router, i) == Success(listings[i])
      invariant forall i, key :: LiveAt(live, i, key) == if i in listings then LiveByKey(listings[i], key) else None
      decreases pending
    {
      var iface :| iface in pending;
      var listed := ListWireguardPeers(fetch(router, iface), iface);
      if listed.Failure? {
        assert GroupListing(fetch, router, iface).Failure?;
        return false, live, listings;
      }
      live := AddListing(live, iface, listed.value);
      listings := listings[iface := listed.value];
      pending := pending - {iface};
    }
    assert forall i | i in interfaces :: i in listings;
    return true, live, listings;
  }

  /** Listings gathered for every interface of the items are the items'
      listings, and each lists only peers of its own interface. */
  lemma CompleteListings(fetch: (RouterRow, string) -> Result<seq<Row>, ClientError>, router: RouterRow,
                         items: seq<ImportItem>, listings: map<string, seq<WGPeer>>)
    requires listings.Keys == ItemInterfaces(items)
    requires forall i | i in listings :: GroupListing(fetch, router, i) == Success(listings[i])
    ensures listings == Listings(fetch, router, items)
    ensures ListedOn(listings)
  {
    forall i | i in listings ensures forall k | 0 <= k < |listings[i]| :: listings[i][k].interface == i {
      assert fetch(router, i).Success? && ListedPeers(fetch(router, i).value, i) == Success(listings[i]);
      ListedPeersOnInterface(fetch(router, i).value, i);
    }
  }

  /** The item pass of `import_peers`: looks every item up in the live map
      and in the stored peers as they were before the request, updating the
      selection of stored peers and collecting the rows of new ones. */
  method ApplyItems(peers: map<int, PeerRow>, routerId: int, live: map<(string, string), WGPeer>,
                    ghost listings: map<string, seq<WGPeer>>, items: seq<ImportItem>)
    returns (updated: map<int, PeerRow>, added: seq<PeerRow>)
    requires UniquePeerKeys(peers)
    requires forall i, key :: LiveAt(live, i, key) == if i in listings then LiveByKey(listings[i], key) else None
    ensures updated == Reselected(peers, routerId, listings, items)
    ensures added == NewRows(peers, routerId, listings, items)
  {
    updated := peers;
    added := [];
    for n := 0 to |items|
      invariant updated == Reselected(peers, routerId, listings, items[..n])
      invariant added == NewRows(peers, routerId, listings, items[..n])
    {
      assert items[..n + 1][..n] == items[..n];
      var it := items[n];
      assert LiveAt(live, it.interface, it.publicKey) == LiveOf(listings, it);
      if (it.interface, it.publicKey) !in live {
        continue;
      }
      var row := live[(it.interface, it.publicKey)];
      var existing := PeerIdOf(peers, routerId, it.interface, it.publicKey);
      if existing.Some? {
        updated := updated[existing.value := updated[existing.value].(selected := it.selected)];
        continue;
      }
      added := added + [ImportedRow(routerId, row, it.selected)];
    }
    assert items[..|items|] == items;
  }

  /** What `import_peers` answers for a found router, given the peer table
      before the request and the one after it: a 500 when an interface
      cannot be listed or the new rows collide on the unique key; otherwise
      the count of new rows, with the selection updates applied and the new
      rows stored under fresh ids. */
  predicate ImportOutcome(peers: map<int, PeerRow>, lastPeerId: int, routerId: int, router: RouterRow,
                          items: seq<ImportItem>, fetch: (RouterRow, string) -> Result<seq<Row>, ClientError>,
                          r: Result<int, HttpError>, after: map<int, PeerRow>)
    requires UniquePeerKeys(peers)
  {
    var listings := Listings(fetch, router, items);
    var rows := NewRows(peers, routerId, listings, items);
    && ((exists i | i in ItemInterfaces(items) :: GroupListing(fetch, router, i).Failure?)
        ==> r.Failure? && r.error.status == InternalError)
    && (r.Failure? ==> r.error.status == InternalError)
    && (r.Success? <==>
          && (forall i | i in ItemInterfaces(items) :: GroupListing(fetch, router, i).Success?)
          && DistinctKeys(rows))
    && (r.Success? ==>
          && r.value == |rows|
          && after == WithRows(Reselected(peers, routerId, listings, items), rows, lastPeerId + 1))
  }

  /** `import_peers` once the router is found, on the peer table as it
      stands: lists the items' interfaces, applies the items and checks the
      unique key of the new rows; on success, the peer table to commit. */
  method ImportListed(peers: map<int, PeerRow>, lastPeerId: nat, routerId: int, router: RouterRow,
                      items: seq<ImportItem>, fetch: (RouterRow, string) -> Result<seq<Row>, ClientError>)
    returns (r: Result<int, HttpError>, newPeers: map<int, PeerRow>)
    requires UniquePeerKeys(peers) && forall id | id in peers :: id <= lastPeerId
    ensures ImportOutcome(peers, lastPeerId, routerId, router, items, fetch, r, newPeers)
    ensures r.Success? ==> r.value >= 0 && UniquePeerKeys(newPeers)
    ensures r.Success? ==> forall id | id in newPeers :: id <= lastPeerId + r.value
  {
    newPeers := peers;
    var ok, live, listings := ListInterfaces(fetch, router, ItemInterfaces(items));
    if !ok {
      return Failure(HttpError(InternalError, "router listing failed")), newPeers;
    }
    CompleteListings(fetch, router, items, listings);
    var updated, added := ApplyItems(peers, routerId, live, listings, items);
    if !DistinctKeys(added) {
      return Failure(HttpError(InternalError, "UNIQUE constraint failed")), newPeers;
    }
    CommitKeepsKeysUnique(peers, routerId, listings, items, lastPeerId + 1);
    newPeers := WithRows(updated, added, lastPeerId + 1);
    r := Success(|added|);
  }

  /** `import_peers`. An unknown router is a 404. The interfaces the items
      name are listed first, and a failed listing ends the request with
      nothing stored. Then every live item either updates the `selected` of
      the stored peer with its key or adds a new row; the answer counts the
      new rows. Two items adding the same new peer make the commit fail on
      the unique key, and nothing is stored. */
  method ImportPeers(db: Database, routerId: int, items: seq<ImportItem>,
                     fetch: (RouterRow, string) -> Result<seq<Row>, ClientError>)
    returns (r: Result<int, HttpError>)
    requires db.Valid()
    modifies db`peers, db`lastPeerId
    ensures db.Valid()
    ensures r.Failure? ==> db.peers == old(db.peers)
    ensures routerId !in db.routers ==> r.Failure? && r.error.status == NotFound
    ensures routerId in db.routers ==>
      ImportOutcome(old(db.peers), old(db.lastPeerId), routerId, db.routers[routerId], items, fetch, r, db.peers)
  {
    if routerId !in db.routers {
      return Failure(HttpError(NotFound, "router not found"));
    }
    var newPeers;
    r, newPeers := ImportListed(db.peers, db.lastPeerId, routerId, db.routers[routerId], items, fetch);
    if r.Success? {
      db.PutPeers(newPeers, db.lastPeerId + r.value);
    }
  }
}
