// The parts of the binary-API adapter (RouterOSApiClient) that differ from
// the REST adapter: the `set` parameters, the three-stage id extraction of
// `add_wireguard_peer`, and `get_primary_ipv4` letting a failed listing
// propagate. Its handshake and bool parsers, peer listing, address choice and
// add payload are the shared ones of module ClientBase.
module ApiClient {
  import opened Wrappers
  import opened PyValues
  import opened ClientBase
  import RestClient

  /** The words of /interface/wireguard/peers/set: the peer's id under ".id"
      and the flag as "yes" or "no". */
  function SetDisabledParams(rosId: string, disabled: bool): (params: map<string, string>)
    ensures params.Keys == {".id", "disabled"}
    ensures params[".id"] == rosId
    ensures params["disabled"] == if disabled then "yes" else "no"
    ensures ParseBool(PStr(params["disabled"])) == disabled
  {
    YesNoRoundTrip(disabled);
    map[".id" := rosId, "disabled" := YesNo(disabled)]
  }

  /** Both adapters send the same id and the same flag word; only the key
      naming the peer differs. */
  lemma SetPayloadsAgree(rosId: string, disabled: bool)
    ensures var rest := RestClient.SetDisabledPayload(rosId, disabled);
      var api := SetDisabledParams(rosId, disabled);
      rest["numbers"] == api[".id"] && rest["disabled"] == api["disabled"]
  {
  }

  /** The id an add answer carries: a dict's, or that of a list's first
      element when that is a dict. */
  function IdOfAnswer(res: PyVal): Option<string> {
    match res
    case PDict(m) => IdOfDict(m)
    case PList(xs) => if xs != [] && xs[0].PDict? then IdOfDict(xs[0].entries) else None
    case _ => None
  }

  /** A printed peer row the fallback scan accepts: on the interface, with the
      public key, and with a non-empty id. */
  predicate PrintedMatch(row: Row, iface: string, key: string) {
    OnInterface(row, iface) && Get(row, "public-key", PNone) == PStr(key) && Text(row, ".id") != ""
  }

  /** The id of the first accepted printed row. */
  function FirstPrintedId(rows: seq<Row>, iface: string, key: string): Option<string>
    decreases |rows|
  {
    if rows == [] then None
    else if PrintedMatch(rows[0], iface, key) then Some(Text(rows[0], ".id"))
    else FirstPrintedId(rows[1..], iface, key)
  }

  /** The scan returns the id of the earliest accepted row, and nothing only
      when no row is accepted. */
  lemma {:induction false} FirstPrintedIdIsFirst(rows: seq<Row>, iface: string, key: string)
    ensures var id := FirstPrintedId(rows, iface, key);
      && (id.None? <==> forall j | 0 <= j < |rows| :: !PrintedMatch(rows[j], iface, key))
      && (id.Some? ==> exists i | 0 <= i < |rows| ::
            && PrintedMatch(rows[i], iface, key) && Text(rows[i], ".id") == id.value
            && forall j | 0 <= j < i :: !PrintedMatch(rows[j], iface, key))
    decreases |rows|
  {
    if rows != [] && !PrintedMatch(rows[0], iface, key) {
      FirstPrintedIdIsFirst(rows[1..], iface, key);
      var id := FirstPrintedId(rows, iface, key);
      if id.Some? {
        var i :| 0 <= i < |rows| - 1 && PrintedMatch(rows[1..][i], iface, key)
          && Text(rows[1..][i], ".id") == id.value
          && forall j | 0 <= j < i :: !PrintedMatch(rows[1..][j], iface, key);
        assert rows[i + 1] == rows[1..][i];
        assert forall j | 0 <= j < i + 1 :: !PrintedMatch(rows[j], iface, key) by {
          forall j | 0 <= j < i + 1 ensures !PrintedMatch(rows[j], iface, key) {
            if j > 0 {
              assert rows[j] == rows[1..][j - 1];
            }
          }
        }
      } else {
        assert forall j | 0 <= j < |rows| :: !PrintedMatch(rows[j], iface, key) by {
          forall j | 0 <= j < |rows| ensures !PrintedMatch(rows[j], iface, key) {
            if j > 0 {
              assert rows[j] == rows[1..][j - 1];
            }
          }
        }
      }
    }
  }

  /** What the binary-API `add_wireguard_peer` returns, given the answer to
      the add command and the answer to the peer print it falls back on. */
  function ApiAddedId(response: Result<PyVal, ClientError>, printed: Result<seq<Row>, ClientError>,
                      iface: string, key: string): Result<string, ClientError>
  {
    if response.Failure? then Failure(response.error)
    else if IdOfAnswer(response.value).Some? then Success(IdOfAnswer(response.value).value)
    else if printed.Failure? then Failure(printed.error)
    else match FirstPrintedId(printed.value, iface, key)
      case Some(id) => Success(id)
      case None => Failure(NoPeerId)
  }

  /** The binary-API adapter never reports an empty peer id. */
  lemma ApiAddedIdNonEmpty(response: Result<PyVal, ClientError>, printed: Result<seq<Row>, ClientError>,
                           iface: string, key: string)
    ensures var r := ApiAddedId(response, printed, iface, key); r.Success? ==> r.value != ""
  {
    if response.Success? && IdOfAnswer(response.value).None? && printed.Success? {
      FirstPrintedIdIsFirst(printed.value, iface, key);
    }
  }

  /** On a dict answer that names the peer, both adapters return that id. */
  lemma AddedIdsAgreeOnDictAnswer(m: map<string, PyVal>, relisting: Result<seq<Row>, ClientError>,
                                  printed: Result<seq<Row>, ClientError>, iface: string, key: string)
    requires IdOfDict(m).Some?
    ensures RestClient.RestAddedId(Success(PDict(m)), relisting, iface, key)
         == ApiAddedId(Success(PDict(m)), printed, iface, key)
         == Success(IdOfDict(m).value)
  {
  }

  /** Where the adapters part ways: with an answer that names no id and a
      listed row without an id, the REST adapter returns the empty id while
      the binary-API adapter reports that no id was found. */
  lemma AddedIdsDivergeOnBlankId(iface: string, key: string)
    ensures var row: Row := map["interface" := PStr(iface), "public-key" := PStr(key)];
      && RestClient.RestAddedId(Success(PDict(map[])), Success([row]), iface, key) == Success("")
      && ApiAddedId(Success(PDict(map[])), Success([row]), iface, key) == Failure(NoPeerId)
  {
    var row: Row := map["interface" := PStr(iface), "public-key" := PStr(key)];
    assert IntOf(Get(row, "rx", PInt(0))) == Some(0);
    assert IntOf(Get(row, "tx", PInt(0))) == Some(0);
    assert [row][..0] == [];
    var listed := ListedPeers([row], iface);
    assert OnInterface(row, iface);
    assert PeerOfRow(row).Some? && PeerOfRow(row).value.publicKey == key;
    assert ListedPeers([row][..0], iface) == Success([]);
    assert [row][|[row]| - 1] == row;
    assert listed == Success([] + [PeerOfRow(row).value]);
    assert PeerOfRow(row).value.rosId == "";
    assert !PrintedMatch(row, iface, key);
    assert IdOfDict(map[]).None?;
    assert [row][1..] == [];
    assert FirstPrintedId([row], iface, key) == None;
  }

  /** `add_wireguard_peer` of the binary-API adapter: sends the parameters,
      takes the id from the answer (a dict, or a list whose first element is
      a dict), and otherwise scans the printed peers for the first row on the
      interface with the new public key and a non-empty id. */
  method ApiAddWireguardPeer(iface: string, publicKey: string, allowedAddress: string,
                             name: string, comment: string, disabled: bool,
                             response: Result<PyVal, ClientError>,
                             printed: Result<seq<Row>, ClientError>)
    returns (sent: map<string, string>, r: Result<string, ClientError>)
    ensures PeerOfRow(AsRow(sent))
         == Some(WGPeer("", iface, name, publicKey, allowedAddress, disabled, 0, 0, None, ""))
    ensures ("comment" in sent <==> comment != "") && ("comment" in sent ==> sent["comment"] == comment)
    ensures r == ApiAddedId(response, printed, iface, publicKey)
  {
    sent := AddPeerPayload(iface, publicKey, allowedAddress, name, comment, disabled);
    if response.Failure? {
      return sent, Failure(response.error);
    }
    var res := response.value;
    if res.PDict? {
      var rid := IdOfDict(res.entries);
      if rid.Some? {
        return sent, Success(rid.value);
      }
    }
    if res.PList? && res.items != [] {
      var first := res.items[0];
      if first.PDict? {
        var rid := IdOfDict(first.entries);
        if rid.Some? {
          return sent, Success(rid.value);
        }
      }
    }
    if printed.Failure? {
      return sent, Failure(printed.error);
    }
    var rows := printed.value;
    for i := 0 to |rows|
      invariant FirstPrintedId(rows, iface, publicKey) == FirstPrintedId(rows[i..], iface, publicKey)
    {
      assert rows[i..][1..] == rows[i + 1..];
      var row := rows[i];
      if Get(row, "interface", PNone) == PStr(iface) && Get(row, "public-key", PNone) == PStr(publicKey) {
        var rid := Text(row, ".id");
        if rid != "" {
          return sent, Success(rid);
        }
      }
    }
    return sent, Failure(NoPeerId);
  }

  /** `get_primary_ipv4` of the binary-API adapter: a failed /ip/address print
      is passed on as an error. */
  method ApiPrimaryIPv4(listing: Result<seq<Row>, ClientError>, classify: string -> AddrClass)
    returns (r: Result<string, ClientError>)
    ensures listing.Failure? ==> r == Failure(listing.error)
    ensures listing.Success? ==> r == Success(PrimaryHost(listing.value, classify))
  {
    if listing.Failure? {
      return Failure(listing.error);
    }
    var host := SelectPrimaryIPv4(listing.value, classify);
    return Success(host);
  }
}
