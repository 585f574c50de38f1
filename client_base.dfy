// What the two RouterOS adapters share. The REST adapter and the binary-API
// adapter carry textually identical copies of the value parsers, of the row
// filtering in `list_wireguard_peers`, of the address choice in
// `get_primary_ipv4` and of the add-peer payload, so each is modelled once here;
// rest_client.dfy and api_client.dfy hold what differs between them.
module ClientBase {
  import opened Wrappers
  import opened PyValues

  /** A WireGuard peer as an adapter reports it. `lastHandshake` is the age of
      the last handshake in seconds, None when there was none. */
  datatype WGPeer = WGPeer(
    rosId: string,
    interface: string,
    name: string,
    publicKey: string,
    allowedAddress: string,
    disabled: bool,
    rxBytes: int,
    txBytes: int,
    lastHandshake: Option<int>,
    endpoint: string)

  /** Why an adapter call failed: the router could not be reached or answered
      with an error, a counter field was not an integer, or no id could be
      found for a freshly added peer. */
  datatype ClientError = Transport | BadCounter | NoPeerId

  /** One row of a RouterOS listing. */
  type Row = map<string, PyVal>

  /** A textual field of a row, `row.get(key, "")`. RouterOS sends these as
      strings; a value of another type reads as empty. */
  function Text(row: Row, key: string): string {
    if key in row && row[key].PStr? then row[key].s else ""
  }

  // ---------------------------------------------------------------------------
  // _parse_last_handshake

  /** One number-unit pair found by `re.findall(r"(\d+)([wdhms])", s)`. */
  datatype UnitAmount = UnitAmount(amount: nat, unit: char)

  predicate IsUnit(c: char) {
    c == 'w' || c == 'd' || c == 'h' || c == 'm' || c == 's'
  }

  /** Seconds per duration unit: week, day, hour, minute, second. */
  function UnitSeconds(u: char): nat {
    if u == 'w' then 604800
    else if u == 'd' then 86400
    else if u == 'h' then 3600
    else if u == 'm' then 60
    else if u == 's' then 1
    else 0
  }

  /** Length of the run of digits that starts `s`. */
  function DigitRun(s: string): (k: nat)
    ensures k <= |s|
    ensures s != [] && IsDigit(s[0]) ==> k >= 1
    decreases |s|
  {
    if s != [] && IsDigit(s[0]) then 1 + DigitRun(s[1..]) else 0
  }

  /** The matches of `(\d+)([wdhms])`, left to right and without overlap. The
      greedy `\d+` can only succeed on a whole run of digits that is directly
      followed by a unit letter; any other character is skipped. */
  function FindUnitAmounts(s: string): seq<UnitAmount>
    decreases |s|
  {
    if s == [] then []
    else if !IsDigit(s[0]) then FindUnitAmounts(s[1..])
    else
      var k := DigitRun(s);
      assert AllDigits(s[..k]) by { DigitRunDigits(s); }
      if k < |s| && IsUnit(s[k]) then
        [UnitAmount(DigitsValue(s[..k]), s[k])] + FindUnitAmounts(s[k + 1..])
      else FindUnitAmounts(s[k..])
  }

  lemma {:induction false} DigitRunDigits(s: string)
    ensures AllDigits(s[..DigitRun(s)])
    decreases |s|
  {
    if s != [] && IsDigit(s[0]) {
      DigitRunDigits(s[1..]);
      assert s[..DigitRun(s)] == [s[0]] + s[1..][..DigitRun(s[1..])];
    }
  }

  /** The seconds a list of matches adds up to. */
  function WeightedSeconds(found: seq<UnitAmount>): nat
    decreases |found|
  {
    if found == [] then 0
    else
      var last := found[|found| - 1];
      WeightedSeconds(found[..|found| - 1]) + last.amount * UnitSeconds(last.unit)
  }

  /** What `_parse_last_handshake` returns. False and 0 both compare equal to
      0, so both are "no handshake"; True is the integer 1. */
  function LastHandshake(value: PyVal): Option<int> {
    match value
    case PNone => None
    case PBool(b) => if b then Some(1) else None
    case PInt(i) => if i == 0 then None else Some(i)
    case PStr(s) => if s == "" then None else HandshakeOfText(Strip(s))
    case _ => None
  }

  /** The handshake age a non-empty, stripped string stands for. */
  function HandshakeOfText(t: string): Option<int> {
    if IsDigitString(t) then Some(DigitsValue(t))
    else
      var total := WeightedSeconds(FindUnitAmounts(t));
      if total == 0 then None else Some(total)
  }

  /** `_parse_last_handshake`: turns a RouterOS handshake age such as
      "1w2d3h4m5s", a plain number of seconds, or an integer into seconds. */
  method ParseLastHandshake(value: PyVal) returns (r: Option<int>)
    ensures r == LastHandshake(value)
  {
    if value == PNone || value == PStr("") || value == PInt(0) || value == PBool(false) {
      return None;
    }
    match value {
      case PInt(i) =>
        return Some(i);
      case PBool(b) =>
        return Some(1);
      case PStr(s) =>
        var t := Strip(s);
        if IsDigitString(t) {
          return Some(DigitsValue(t));
        }
        var found := FindUnitAmounts(t);
        var total: nat := 0;
        for j := 0 to |found|
          invariant total == WeightedSeconds(found[..j])
        {
          var amt := found[j].amount;
          var unit := found[j].unit;
          if unit == 'w' {
            total := total + amt * 604800;
          } else if unit == 'd' {
            total := total + amt * 86400;
          } else if unit == 'h' {
            total := total + amt * 3600;
          } else if unit == 'm' {
            total := total + amt * 60;
          } else if unit == 's' {
            total := total + amt;
          }
          assert found[..j + 1][..j] == found[..j];
        }
        assert found[..|found|] == found;
        return if total == 0 then None else Some(total);
      case _ =>
        return None;
    }
  }

  /** How RouterOS writes a duration: each amount followed by its unit. */
  function RenderDuration(parts: seq<UnitAmount>): string
    decreases |parts|
  {
    if parts == [] then ""
    else NatStr(parts[0].amount) + [parts[0].unit] + RenderDuration(parts[1..])
  }

  lemma {:induction false} DigitRunOfNumeral(d: string, c: char, rest: string)
    requires AllDigits(d) && !IsDigit(c)
    ensures DigitRun(d + [c] + rest) == |d|
    decreases |d|
  {
    if d == [] {
    } else {
      assert (d + [c] + rest)[1..] == d[1..] + [c] + rest;
      DigitRunOfNumeral(d[1..], c, rest);
    }
  }

  lemma FindUnitAmountsStep(p: UnitAmount, rest: string)
    requires IsUnit(p.unit)
    ensures FindUnitAmounts(NatStr(p.amount) + [p.unit] + rest)
         == [p] + FindUnitAmounts(rest)
  {
    var d := NatStr(p.amount);
    var s := d + [p.unit] + rest;
    DigitRunOfNumeral(d, p.unit, rest);
    assert s[..|d|] == d;
    assert s[|d|] == p.unit;
    assert s[|d| + 1..] == rest;
    NatStrValue(p.amount);
    assert IsDigit(s[0]);
  }

  /** The regular expression finds exactly the parts a rendered duration was
      built from. */
  lemma {:induction false} FindRenderedUnits(parts: seq<UnitAmount>)
    requires forall i | 0 <= i < |parts| :: IsUnit(parts[i].unit)
    ensures FindUnitAmounts(RenderDuration(parts)) == parts
    decreases |parts|
  {
    if parts != [] {
      FindRenderedUnits(parts[1..]);
      FindUnitAmountsStep(parts[0], RenderDuration(parts[1..]));
    }
  }

  lemma {:induction false} RenderedEndsInUnit(parts: seq<UnitAmount>)
    requires parts != [] && forall i | 0 <= i < |parts| :: IsUnit(parts[i].unit)
    ensures var s := RenderDuration(parts); s != [] && IsDigit(s[0]) && IsUnit(s[|s| - 1])
    decreases |parts|
  {
    var s := RenderDuration(parts);
    var head := NatStr(parts[0].amount) + [parts[0].unit];
    assert s == head + RenderDuration(parts[1..]);
    assert s[0] == head[0];
    if |parts| > 1 {
      RenderedEndsInUnit(parts[1..]);
    }
  }

  /** A duration as RouterOS prints it parses to the sum of amount times unit
      weight, and to None when that sum is 0. */
  lemma HandshakeOfRenderedDuration(parts: seq<UnitAmount>)
    requires forall i | 0 <= i < |parts| :: IsUnit(parts[i].unit)
    ensures LastHandshake(PStr(RenderDuration(parts)))
         == if WeightedSeconds(parts) == 0 then None else Some(WeightedSeconds(parts))
  {
    if parts != [] {
      var s := RenderDuration(parts);
      RenderedEndsInUnit(parts);
      HandshakeOfDurationText(s);
      FindRenderedUnits(parts);
    }
  }

  lemma HandshakeOfDurationText(s: string)
    requires s != [] && IsDigit(s[0]) && IsUnit(s[|s| - 1])
    ensures LastHandshake(PStr(s))
         == var total := WeightedSeconds(FindUnitAmounts(s)); if total == 0 then None else Some(total)
  {
    assert s[0] !in Whitespace;
    assert s[|s| - 1] !in Whitespace;
    StripUnpadded(s);
    assert !IsDigitString(s) by {
      assert !IsDigit(s[|s| - 1]);
    }
    assert LastHandshake(PStr(s)) == HandshakeOfText(s);
  }

  /** A plain number of seconds reads as that number. */
  lemma HandshakeOfDigitText(t: string)
    requires IsDigitString(t)
    ensures LastHandshake(PStr(t)) == Some(DigitsValue(t))
  {
    assert t[0] !in Whitespace && t[|t| - 1] !in Whitespace by {
      assert IsDigit(t[0]) && IsDigit(t[|t| - 1]);
    }
    StripUnpadded(t);
  }

  /** The parts of the example of the RouterOS documentation: one week, two
      days, three hours, four minutes and five seconds. */
  const ExampleParts: seq<UnitAmount> :=
    [UnitAmount(1, 'w'), UnitAmount(2, 'd'), UnitAmount(3, 'h'), UnitAmount(4, 'm'), UnitAmount(5, 's')]

  lemma ExampleRendered()
    ensures RenderDuration(ExampleParts) == "1w2d3h4m5s"
  {
    var parts := ExampleParts;
    assert NatStr(1) == "1" && NatStr(2) == "2" && NatStr(3) == "3";
    assert NatStr(4) == "4" && NatStr(5) == "5";
    assert RenderDuration(parts[4..]) == "5s";
    assert RenderDuration(parts[3..]) == "4m5s";
    assert RenderDuration(parts[2..]) == "3h4m5s";
    assert RenderDuration(parts[1..]) == "2d3h4m5s";
  }

  lemma ExampleWeight()
    ensures WeightedSeconds(ExampleParts) == 788645
  {
    var parts := ExampleParts;
    assert parts[..1][..0] == [];
    assert WeightedSeconds(parts[..1]) == 604800;
    assert parts[..2][..1] == parts[..1];
    assert WeightedSeconds(parts[..2]) == 777600;
    assert parts[..3][..2] == parts[..2];
    assert WeightedSeconds(parts[..3]) == 788400;
    assert parts[..4][..3] == parts[..3];
    assert WeightedSeconds(parts[..4]) == 788640;
    assert parts[..4] == parts[..|parts| - 1];
  }

  /** The documentation's example "1w2d3h4m5s" is 788645 seconds. */
  lemma HandshakeExample()
    ensures LastHandshake(PStr("1w2d3h4m5s")) == Some(788645)
  {
    ExampleRendered();
    ExampleWeight();
    assert forall i | 0 <= i < |ExampleParts| :: IsUnit(ExampleParts[i].unit);
    HandshakeOfRenderedDuration(ExampleParts);
  }

  /** A number-unit string that adds up to nothing is "no handshake"... */
  lemma ZeroDurationIsNoHandshake()
    ensures LastHandshake(PStr("0s")) == None
  {
    HandshakeOfRenderedDuration([UnitAmount(0, 's')]);
    assert RenderDuration([UnitAmount(0, 's')]) == "0s";
  }

  /** ... while a bare "0", padded or not, is the integer 0. */
  lemma PaddedZeroIsZero()
    ensures LastHandshake(PStr(" 0 ")) == Some(0)
  {
    StripSpaced("0");
    assert LastHandshake(PStr(" 0 ")) == HandshakeOfText("0");
    assert IsDigitString("0") && DigitsValue("0") == 0;
  }

  // ---------------------------------------------------------------------------
  // _parse_bool

  const TrueWords: set<string> := {"1", "true", "t", "yes", "y", "on", "enabled"}
  const FalseWords: set<string> := {"0", "false", "f", "no", "n", "off", "disabled"}

  /** `_parse_bool`: booleans as they are, None as false, numbers by being
      non-zero, the listed words in any case and padding, and any other
      string by being non-empty. */
  function ParseBool(value: PyVal): bool {
    match value
    case PBool(b) => b
    case PNone => false
    case PInt(i) => i != 0
    case PStr(s) => BoolOfText(s)
    case _ => Truthy(value)
  }

  function BoolOfText(s: string): bool {
    var w := Lower(Strip(s));
    if w in TrueWords then true
    else if w in FalseWords then false
    else s != ""
  }

  /** The word the adapters send for a disabled flag. */
  function YesNo(b: bool): string {
    if b then "yes" else "no"
  }

  lemma YesIsTrue()
    ensures ParseBool(PStr("yes"))
  {
    var w := "yes";
    assert w[0] == 'y' && w[|w| - 1] == 's';
    StripUnpadded(w);
    assert Lower(w) == w;
    assert w in TrueWords;
  }

  lemma NoIsFalse()
    ensures !ParseBool(PStr("no"))
  {
    var w := "no";
    assert w[0] == 'n' && w[|w| - 1] == 'o';
    StripUnpadded(w);
    assert Lower(w) == w;
    assert w !in TrueWords by {
      assert forall t | t in TrueWords :: |t| != 2 || t[0] != 'n';
    }
    assert w in FalseWords;
  }

  /** The flag the adapters send reads back as the flag they meant. */
  lemma YesNoRoundTrip(b: bool)
    ensures ParseBool(PStr(YesNo(b))) == b
  {
    if b {
      YesIsTrue();
    } else {
      NoIsFalse();
    }
  }

  lemma WordsDisjoint()
    ensures TrueWords !! FalseWords
  {
    forall w | w in TrueWords ensures w !in FalseWords {
      assert w == "1" || w == "true" || w == "t" || w == "yes" || w == "y" || w == "on" || w == "enabled";
    }
  }

  /** Whatever whitespace surrounds it and whatever the case of its letters,
      a listed word reads as true when it is a true word and as false when it
      is a false word. */
  lemma ParseBoolWords(pre: string, word: string, post: string)
    requires AllSpace(pre) && AllSpace(post)
    requires word != [] && word[0] !in Whitespace && word[|word| - 1] !in Whitespace
    ensures Lower(word) in TrueWords ==> ParseBool(PStr(pre + word + post))
    ensures Lower(word) in FalseWords ==> !ParseBool(PStr(pre + word + post))
  {
    StripPadded(pre, word, post);
    WordsDisjoint();
  }

  /** Padding and upper case do not change the reading of a listed word. */
  lemma ParseBoolPadded()
    ensures ParseBool(PStr(" Yes "))
  {
    StripSpaced("Yes");
    assert Lower("Yes") == "yes";
    assert BoolOfText(" Yes ");
  }

  lemma ParseBoolUpperCase()
    ensures !ParseBool(PStr("OFF"))
  {
    var off := "OFF";
    assert off[0] !in Whitespace && off[|off| - 1] !in Whitespace;
    StripUnpadded(off);
    assert Lower(off) == "off";
    assert !BoolOfText(off);
  }

  /** A blank string that is no word falls back to its truthiness: true. */
  lemma ParseBoolBlank()
    ensures ParseBool(PStr("  ")) && !ParseBool(PStr(""))
  {
    assert TrimStart("  ") == TrimStart(" ") == TrimStart("") == "";
    assert Strip("  ") == "";
    assert Lower("") == "";
    assert BoolOfText("  ");
    assert Strip("") == "";
    assert !BoolOfText("");
  }

  // ---------------------------------------------------------------------------
  // list_wireguard_peers

  predicate OnInterface(row: Row, iface: string) {
    Get(row, "interface", PNone) == PStr(iface)
  }

  /** The `WGPeer` built from a row; None when `int(...)` of the rx or tx
      field raises. */
  function PeerOfRow(row: Row): Option<WGPeer> {
    var rx := IntOf(Get(row, "rx", PInt(0)));
    var tx := IntOf(Get(row, "tx", PInt(0)));
    if rx.None? || tx.None? then None
    else Some(WGPeer(
      Text(row, ".id"),
      Text(row, "interface"),
      Text(row, "name"),
      Text(row, "public-key"),
      Text(row, "allowed-address"),
      ParseBool(Get(row, "disabled", PBool(false))),
      rx.value,
      tx.value,
      LastHandshake(Get(row, "last-handshake", PNone)),
      Text(row, "current-endpoint-address")))
  }

  /** The rows on one interface, in listing order. */
  function RowsOn(rows: seq<Row>, iface: string): seq<Row>
    decreases |rows|
  {
    if rows == [] then []
    else
      var init := RowsOn(rows[..|rows| - 1], iface);
      if OnInterface(rows[|rows| - 1], iface) then init + [rows[|rows| - 1]] else init
  }

  /** What `list_wireguard_peers` returns for a successful listing. */
  function ListedPeers(rows: seq<Row>, iface: string): Result<seq<WGPeer>, ClientError>
    decreases |rows|
  {
    if rows == [] then Success([])
    else
      var init := ListedPeers(rows[..|rows| - 1], iface);
      var row := rows[|rows| - 1];
      if init.Failure? || !OnInterface(row, iface) then init
      else match PeerOfRow(row)
        case None => Failure(BadCounter)
        case Some(p) => Success(init.value + [p])
  }

  /** Every row's counters read as integers. */
  predicate AllParse(on: seq<Row>) {
    forall k | 0 <= k < |on| :: PeerOfRow(on[k]).Some?
  }

  /** The peers are the rows' `WGPeer`s, one for one and in order. */
  predicate ParsedAs(on: seq<Row>, peers: seq<WGPeer>) {
    |peers| == |on| && forall k | 0 <= k < |on| :: PeerOfRow(on[k]) == Some(peers[k])
  }

  lemma AllParseSnoc(on: seq<Row>, row: Row)
    ensures AllParse(on + [row]) <==> AllParse(on) && PeerOfRow(row).Some?
  {
    var on1 := on + [row];
    assert forall k | 0 <= k < |on| :: on1[k] == on[k];
    assert on1[|on|] == row;
  }

  lemma ParsedAsSnoc(on: seq<Row>, peers: seq<WGPeer>, row: Row, p: WGPeer)
    requires ParsedAs(on, peers) && PeerOfRow(row) == Some(p)
    ensures ParsedAs(on + [row], peers + [p])
  {
    var on1, peers1 := on + [row], peers + [p];
    assert forall k | 0 <= k < |on| :: on1[k] == on[k] && peers1[k] == peers[k];
  }

  /** The listing keeps exactly the rows on the interface, in order, and
      fails exactly when one of them has a counter that is not an integer. */
  lemma {:induction false} ListedPeersMatchRows(rows: seq<Row>, iface: string)
    ensures var r := ListedPeers(rows, iface); var on := RowsOn(rows, iface);
      && (r.Success? <==> AllParse(on))
      && (r.Failure? ==> r.error == BadCounter)
      && (r.Success? ==> ParsedAs(on, r.value))
    decreases |rows|
  {
    if rows != [] {
      var init := rows[..|rows| - 1];
      var row := rows[|rows| - 1];
      ListedPeersMatchRows(init, iface);
      var on0 := RowsOn(init, iface);
      var r0 := ListedPeers(init, iface);
      if OnInterface(row, iface) {
        assert RowsOn(rows, iface) == on0 + [row];
        AllParseSnoc(on0, row);
        if r0.Success? && PeerOfRow(row).Some? {
          ParsedAsSnoc(on0, r0.value, row, PeerOfRow(row).value);
        }
      } else {
        assert RowsOn(rows, iface) == on0;
        assert ListedPeers(rows, iface) == r0;
      }
    }
  }

  /** Every listed peer sits on the requested interface. */
  lemma ListedPeersOnInterface(rows: seq<Row>, iface: string)
    ensures var r := ListedPeers(rows, iface);
      r.Success? ==> forall k | 0 <= k < |r.value| :: r.value[k].interface == iface
  {
    ListedPeersMatchRows(rows, iface);
    RowsOnInterface(rows, iface);
  }

  lemma {:induction false} RowsOnInterface(rows: seq<Row>, iface: string)
    ensures forall k | 0 <= k < |RowsOn(rows, iface)| :: OnInterface(RowsOn(rows, iface)[k], iface)
    decreases |rows|
  {
    if rows != [] {
      RowsOnInterface(rows[..|rows| - 1], iface);
    }
  }

  /** `list_wireguard_peers`, given the router's answer to the peer listing. */
  method ListWireguardPeers(listing: Result<seq<Row>, ClientError>, iface: string)
    returns (r: Result<seq<WGPeer>, ClientError>)
    ensures listing.Failure? ==> r == Failure(listing.error)
    ensures listing.Success? ==> r == ListedPeers(listing.value, iface)
  {
    if listing.Failure? {
      return Failure(listing.error);
    }
    var rows := listing.value;
    var peers: seq<WGPeer> := [];
    for i := 0 to |rows|
      invariant ListedPeers(rows[..i], iface) == Success(peers)
    {
      assert rows[..i + 1][..i] == rows[..i];
      var row := rows[i];
      if !OnInterface(row, iface) {
        continue;
      }
      var p := PeerOfRow(row);
      if p.None? {
        assert ListedPeers(rows[..i + 1], iface).Failure?;
        FailureSticks(rows, i + 1, iface);
        return Failure(BadCounter);
      }
      peers := peers + [p.value];
    }
    assert rows[..|rows|] == rows;
    return Success(peers);
  }

  lemma {:induction false} FailureSticks(rows: seq<Row>, i: nat, iface: string)
    requires i <= |rows| && ListedPeers(rows[..i], iface) == Failure(BadCounter)
    ensures ListedPeers(rows, iface) == Failure(BadCounter)
    decreases |rows| - i
  {
    if i < |rows| {
      assert rows[..i + 1][..i] == rows[..i];
      FailureSticks(rows, i + 1, iface);
    } else {
      assert rows[..i] == rows;
    }
  }

  // ---------------------------------------------------------------------------
  // get_primary_ipv4

  /** What `ip_network(host + "/32", strict=False)` says of a host: not an
      IPv4 address (or not an address at all), a public one, or a private one. */
  datatype AddrClass = NotIPv4 | PublicIPv4 | PrivateIPv4

  /** `addr.split("/")[0]` */
  function HostPart(addr: string): string
    decreases |addr|
  {
    if addr == [] || addr[0] == '/' then [] else [addr[0]] + HostPart(addr[1..])
  }

  /** The class of a row of /ip/address; rows without an address or without a
      prefix length are skipped. */
  function ClassOf(row: Row, classify: string -> AddrClass): AddrClass {
    var addr := Text(row, "address");
    if addr == "" || '/' !in addr then NotIPv4 else classify(HostPart(addr))
  }

  predicate Qualifies(row: Row, cls: AddrClass, classify: string -> AddrClass) {
    ClassOf(row, classify) == cls && HostPart(Text(row, "address")) != ""
  }

  /** The host of the first row of the given class, or "" when there is none. */
  function FirstHost(rows: seq<Row>, cls: AddrClass, classify: string -> AddrClass): string
    decreases |rows|
  {
    if rows == [] then ""
    else
      var init := FirstHost(rows[..|rows| - 1], cls, classify);
      var row := rows[|rows| - 1];
      if init != "" then init
      else if Qualifies(row, cls, classify) then HostPart(Text(row, "address"))
      else ""
  }

  /** The address `get_primary_ipv4` picks: the first public one, else the
      first private one, else "". */
  function PrimaryHost(rows: seq<Row>, classify: string -> AddrClass): string {
    var public := FirstHost(rows, PublicIPv4, classify);
    if public != "" then public else FirstHost(rows, PrivateIPv4, classify)
  }

  /** FirstHost is the host of the earliest qualifying row, and "" exactly
      when no row qualifies. */
  lemma {:induction false} FirstHostIsFirst(rows: seq<Row>, cls: AddrClass, classify: string -> AddrClass)
    ensures var h := FirstHost(rows, cls, classify);
      && (h == "" <==> forall j | 0 <= j < |rows| :: !Qualifies(rows[j], cls, classify))
      && (h != "" ==> exists i | 0 <= i < |rows| ::
            && Qualifies(rows[i], cls, classify)
            && h == HostPart(Text(rows[i], "address"))
            && forall j | 0 <= j < i :: !Qualifies(rows[j], cls, classify))
    decreases |rows|
  {
    if rows != [] {
      var init := rows[..|rows| - 1];
      var row := rows[|rows| - 1];
      FirstHostIsFirst(init, cls, classify);
      var h0 := FirstHost(init, cls, classify);
      assert forall j | 0 <= j < |init| :: rows[j] == init[j];
      if h0 != "" {
        var i :| 0 <= i < |init| && Qualifies(init[i], cls, classify)
          && h0 == HostPart(Text(init[i], "address"))
          && forall j | 0 <= j < i :: !Qualifies(init[j], cls, classify);
        assert FirstHost(rows, cls, classify) == h0;
        assert rows[i] == init[i] && Qualifies(rows[i], cls, classify);
      } else {
        assert forall j | 0 <= j < |init| :: !Qualifies(init[j], cls, classify);
        if Qualifies(row, cls, classify) {
          assert FirstHost(rows, cls, classify) == HostPart(Text(row, "address")) != "";
          assert rows[|rows| - 1] == row;
        } else {
          assert FirstHost(rows, cls, classify) == "";
        }
      }
    }
  }

  /** The public-before-private, first-wins loop of `get_primary_ipv4` over a
      successful /ip/address listing; `classify` stands for the address
      library. */
  method SelectPrimaryIPv4(rows: seq<Row>, classify: string -> AddrClass) returns (r: string)
    ensures r == PrimaryHost(rows, classify)
  {
    var public := "";
    var private := "";
    for i := 0 to |rows|
      invariant public == FirstHost(rows[..i], PublicIPv4, classify)
      invariant private == FirstHost(rows[..i], PrivateIPv4, classify)
    {
      assert rows[..i + 1][..i] == rows[..i];
      var addr := Text(rows[i], "address");
      if addr == "" || '/' !in addr {
        continue;
      }
      var host := HostPart(addr);
      var cls := classify(host);
      if cls == NotIPv4 {
        continue;
      }
      if cls == PublicIPv4 {
        if public == "" {
          public := host;
        }
      } else {
        if private == "" {
          private := host;
        }
      }
    }
    assert rows[..|rows|] == rows;
    r := if public != "" then public else private;
  }

  // ---------------------------------------------------------------------------
  // add_wireguard_peer payload

  /** A payload seen as the row the router will store. */
  function AsRow(payload: map<string, string>): Row {
    map k | k in payload :: PStr(payload[k])
  }

  /** A stored payload without counters, handshake or endpoint lists back as
      a fresh peer with the payload's fields. */
  lemma PeerOfPayload(payload: map<string, string>, iface: string, publicKey: string,
                      allowedAddress: string, name: string, disabled: bool)
    requires payload.Keys <= {"interface", "public-key", "allowed-address", "name", "comment", "disabled"}
    requires "interface" in payload && payload["interface"] == iface
    requires "public-key" in payload && payload["public-key"] == publicKey
    requires "allowed-address" in payload && payload["allowed-address"] == allowedAddress
    requires ("name" in payload <==> name != "") && ("name" in payload ==> payload["name"] == name)
    requires ("disabled" in payload <==> disabled) && ("disabled" in payload ==> payload["disabled"] == "yes")
    ensures PeerOfRow(AsRow(payload))
         == Some(WGPeer("", iface, name, publicKey, allowedAddress, disabled, 0, 0, None, ""))
  {
    var row := AsRow(payload);
    assert "rx" !in row && "tx" !in row && ".id" !in row;
    assert "last-handshake" !in row && "current-endpoint-address" !in row;
    assert IntOf(Get(row, "rx", PInt(0))) == Some(0);
    assert IntOf(Get(row, "tx", PInt(0))) == Some(0);
    assert Text(row, "interface") == iface;
    assert Text(row, "public-key") == publicKey;
    assert Text(row, "allowed-address") == allowedAddress;
    assert Text(row, "name") == name;
    if disabled {
      YesNoRoundTrip(true);
      assert Get(row, "disabled", PBool(false)) == PStr(YesNo(true));
    }
    assert ParseBool(Get(row, "disabled", PBool(false))) == disabled;
  }

  /** The add-peer payload: interface, public key and allowed address always;
      name and comment only when non-empty; disabled only when set. Stored by
      the router, the payload lists back as exactly the requested peer. */
  method AddPeerPayload(iface: string, publicKey: string, allowedAddress: string,
                        name: string, comment: string, disabled: bool)
    returns (payload: map<string, string>)
    ensures "interface" in payload && payload["interface"] == iface
    ensures "public-key" in payload && payload["public-key"] == publicKey
    ensures "allowed-address" in payload && payload["allowed-address"] == allowedAddress
    ensures "name" in payload <==> name != ""
    ensures "comment" in payload <==> comment != ""
    ensures "disabled" in payload <==> disabled
    ensures "name" in payload ==> payload["name"] == name
    ensures "comment" in payload ==> payload["comment"] == comment
    ensures "disabled" in payload ==> payload["disabled"] == "yes"
    ensures payload.Keys <= {"interface", "public-key", "allowed-address", "name", "comment", "disabled"}
    ensures PeerOfRow(AsRow(payload))
         == Some(WGPeer("", iface, name, publicKey, allowedAddress, disabled, 0, 0, None, ""))
  {
    payload := map["interface" := iface, "public-key" := publicKey, "allowed-address" := allowedAddress];
    if name != "" {
      payload := payload["name" := name];
    }
    if comment != "" {
      payload := payload["comment" := comment];
    }
    if disabled {
      payload := payload["disabled" := YesNo(true)];
    }
    PeerOfPayload(payload, iface, publicKey, allowedAddress, name, disabled);
  }

  // ---------------------------------------------------------------------------
  // add_wireguard_peer id extraction

  /** `res.get("ret") or res.get(".id")`, when that is a non-empty string. */
  function IdOfDict(res: map<string, PyVal>): (id: Option<string>)
    ensures id.Some? ==> id.value != ""
    ensures id.Some? ==>
              || Get(res, "ret", PNone) == PStr(id.value)
              || (!Truthy(Get(res, "ret", PNone)) && Get(res, ".id", PNone) == PStr(id.value))
    ensures Get(res, "ret", PNone).PStr? && Get(res, "ret", PNone).s != ""
            ==> id == Some(Get(res, "ret", PNone).s)
    ensures !Truthy(Get(res, "ret", PNone)) && Get(res, ".id", PNone).PStr? && Get(res, ".id", PNone).s != ""
            ==> id == Some(Get(res, ".id", PNone).s)
    ensures id.None? <==>
              && !(Get(res, "ret", PNone).PStr? && Get(res, "ret", PNone).s != "")
              && !(!Truthy(Get(res, "ret", PNone)) && Get(res, ".id", PNone).PStr? && Get(res, ".id", PNone).s != "")
  {
    var rid := Or(Get(res, "ret", PNone), Get(res, ".id", PNone));
    if rid.PStr? && rid.s != "" then Some(rid.s) else None
  }
}
