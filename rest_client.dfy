// The parts of the REST adapter (RouterOSRestClient) that differ from the
// binary-API adapter: the base URL, the `set` payload, the id fallback of
// `add_wireguard_peer` and the failure handling of `get_primary_ipv4`.
module RestClient {
  import opened Wrappers
  import opened PyValues
  import opened ClientBase

  /** `_base`: the root of the REST interface for the chosen scheme. */
  function BaseUrl(host: string, port: int, https: bool): string {
    (if https then "https" else "http") + "://" + host + ":" + IntStr(port) + "/rest"
  }

  lemma SchemeLetter(host: string, port: int, https: bool)
    ensures |BaseUrl(host, port, https)| > 4
    ensures BaseUrl(host, port, https)[4] == if https then 's' else ':'
  {
  }

  /** For one host and scheme, distinct ports give distinct URLs, and the two
      schemes never give the same URL. */
  lemma BaseUrlInjective(host: string, p1: int, p2: int, s1: bool, s2: bool)
    requires BaseUrl(host, p1, s1) == BaseUrl(host, p2, s2)
    ensures p1 == p2 && s1 == s2
  {
    var u := BaseUrl(host, p1, s1);
    if s1 == s2 {
      var pre := (if s1 then "https" else "http") + "://" + host + ":";
      assert u == pre + (IntStr(p1) + "/rest");
      assert BaseUrl(host, p2, s2) == pre + (IntStr(p2) + "/rest");
      assert u[|pre|..] == IntStr(p1) + "/rest";
      var a := IntStr(p1) + "/rest";
      var b := IntStr(p2) + "/rest";
      assert a == b;
      assert |IntStr(p1)| == |IntStr(p2)|;
      assert IntStr(p1) == a[..|a| - 5] == b[..|b| - 5] == IntStr(p2);
      IntStrInjective(p1, p2);
    } else {
      SchemeLetter(host, p1, s1);
      SchemeLetter(host, p2, s2);
      assert false;
    }
  }

  /** The body of POST /interface/wireguard/peers/set: the peer's id under
      "numbers" and the flag as "yes" or "no". */
  function SetDisabledPayload(rosId: string, disabled: bool): (body: map<string, string>)
    ensures body.Keys == {"numbers", "disabled"}
    ensures body["numbers"] == rosId
    ensures body["disabled"] == if disabled then "yes" else "no"
    ensures ParseBool(PStr(body["disabled"])) == disabled
  {
    YesNoRoundTrip(disabled);
    map["numbers" := rosId, "disabled" := YesNo(disabled)]
  }

  /** The id the re-listing fallback returns: that of the first listed peer
      with the public key, which may be empty. */
  function FirstRosIdWithKey(peers: seq<WGPeer>, key: string): Option<string>
    decreases |peers|
  {
    if peers == [] then None
    else if peers[0].publicKey == key then Some(peers[0].rosId)
    else FirstRosIdWithKey(peers[1..], key)
  }

  lemma {:induction false} FirstRosIdWithKeyIsFirst(peers: seq<WGPeer>, key: string)
    ensures var id := FirstRosIdWithKey(peers, key);
      && (id.None? <==> forall j | 0 <= j < |peers| :: peers[j].publicKey != key)
      && (id.Some? ==> exists i | 0 <= i < |peers| ::
            && peers[i].publicKey == key && peers[i].rosId == id.value
            && forall j | 0 <= j < i :: peers[j].publicKey != key)
    decreases |peers|
  {
    if peers != [] && peers[0].publicKey != key {
      FirstRosIdWithKeyIsFirst(peers[1..], key);
      var id := FirstRosIdWithKey(peers, key);
      if id.Some? {
        var i :| 0 <= i < |peers| - 1 && peers[1..][i].publicKey == key
          && peers[1..][i].rosId == id.value
          && forall j | 0 <= j < i :: peers[1..][j].publicKey != key;
        assert peers[i + 1].publicKey == key && peers[i + 1].rosId == id.value;
        assert forall j | 0 <= j < i + 1 :: peers[j].publicKey != key by {
          forall j | 0 <= j < i + 1 ensures peers[j].publicKey != key {
            if j > 0 {
              assert peers[j] == peers[1..][j - 1];
            }
          }
        }
      } else {
        assert forall j | 0 <= j < |peers| :: peers[j].publicKey != key by {
          forall j | 0 <= j < |peers| ensures peers[j].publicKey != key {
            if j > 0 {
              assert peers[j] == peers[1..][j - 1];
            }
          }
        }
      }
    }
  }

  /** What the REST `add_wireguard_peer` returns, given the answer to the add
      request and the answer to the re-listing it falls back on. */
  function RestAddedId(response: Result<PyVal, ClientError>, relisting: Result<seq<Row>, ClientError>,
                       iface: string, key: string): Result<string, ClientError>
  {
    if response.Failure? then Failure(response.error)
    else if response.value.PDict? && IdOfDict(response.value.entries).Some? then
      Success(IdOfDict(response.value.entries).value)
    else if relisting.Failure? then Failure(relisting.error)
    else
      var listed := ListedPeers(relisting.value, iface);
      if listed.Failure? then Failure(listed.error)
      else match FirstRosIdWithKey(listed.value, key)
        case Some(id) => Success(id)
        case None => Failure(NoPeerId)
  }

  /** `add_wireguard_peer` of the REST adapter: sends the payload, takes the
      id from a dict answer, and otherwise re-lists the interface's peers and
      takes the id of the first one with the new public key. */
  method RestAddWireguardPeer(iface: string, publicKey: string, allowedAddress: string,
                              name: string, comment: string, disabled: bool,
                              response: Result<PyVal, ClientError>,
                              relisting: Result<seq<Row>, ClientError>)
    returns (sent: map<string, string>, r: Result<string, ClientError>)
    ensures PeerOfRow(AsRow(sent))
         == Some(WGPeer("", iface, name, publicKey, allowedAddress, disabled, 0, 0, None, ""))
    ensures ("comment" in sent <==> comment != "") && ("comment" in sent ==> sent["comment"] == comment)
    ensures r == RestAddedId(response, relisting, iface, publicKey)
  {
    sent := AddPeerPayload(iface, publicKey, allowedAddress, name, comment, disabled);
    if response.Failure? {
      return sent, Failure(response.error);
    }
    var res := response.value;
    if res.PDict? {
      var rid := IdOfDict(res.entries);
      if rid.Some? {
        return sent, Success(rid.value);
      }
    }
    var listed := ListWireguardPeers(relisting, iface);
    if listed.Failure? {
      return sent, Failure(listed.error);
    }
    var peers := listed.value;
    for i := 0 to |peers|
      invariant FirstRosIdWithKey(peers, publicKey) == FirstRosIdWithKey(peers[i..], publicKey)
    {
      assert peers[i..][1..] == peers[i + 1..];
      if peers[i].publicKey == publicKey {
        return sent, Success(peers[i].rosId);
      }
    }
    return sent, Failure(NoPeerId);
  }

  /** `get_primary_ipv4` of the REST adapter: a failed /ip/address listing
      gives "" instead of an error. */
  method RestPrimaryIPv4(listing: Result<seq<Row>, ClientError>, classify: string -> AddrClass)
    returns (r: string)
    ensures listing.Failure? ==> r == ""
    ensures listing.Success? ==> r == PrimaryHost(listing.value, classify)
  {
    if listing.Failure? {
      return "";
    }
    r := SelectPrimaryIPv4(listing.value, classify);
  }
}
