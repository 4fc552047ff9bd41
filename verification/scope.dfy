/** Which endpoints of a container are managed, and which addresses are
    dispatched to its chain. */
module Scope {
  import opened Bytes
  import opened Config
  import opened Wrappers
  import opened Policy

  type Addr32 = x: nat | x <= MAX_ADDR

  datatype IP = NoIP | V4(addr: Addr32) | V6(bits: nat)

  datatype Endpoint = Endpoint(networkID: string, ip: IP, hasIPv6: bool, gateway: IP, priority: int)

  /** Endpoint settings by network name; None is a nil entry. */
  type Networks = map<string, Option<Endpoint>>

  const HOST := "host"

  // ----- names -----

  /** findNetwork: the name itself, or prefixed with the Compose project. */
  function FindNetwork<T>(network: string, project: string, m: map<string, T>): (r: Option<string>)
    ensures r.Some? ==> r.value in m
  {
    if network in m then Some(network)
    else if project + "_" + network in m then Some(project + "_" + network)
    else None
  }

  /** An exact name wins over one with the project's prefix; nothing else is found. */
  lemma FindNetworkExactly<T>(network: string, project: string, m: map<string, T>, n: string)
    ensures FindNetwork(network, project, m) == Some(n) <==>
              n in m && (n == network || (n == project + "_" + network && network !in m))
    ensures FindNetwork(network, project, m).None? <==> network !in m && project + "_" + network !in m
  {
  }

  /** strings.Split(s, ",") */
  function SplitComma(s: string): (parts: seq<string>)
    ensures parts != []
  {
    if s == "" then [""]
    else
      var rest := SplitComma(s[1..]);
      if s[0] == ',' then [""] + rest else [[s[0]] + rest[0]] + rest[1..]
  }

  function JoinComma(parts: seq<string>): string
    requires parts != []
  {
    if |parts| == 1 then parts[0] else parts[0] + "," + JoinComma(parts[1..])
  }

  lemma JoinNewEntry(rest: seq<string>)
    requires rest != []
    ensures JoinComma([""] + rest) == [','] + JoinComma(rest)
  {
    assert ([""] + rest)[1..] == rest;
  }

  lemma JoinLongerEntry(c: char, rest: seq<string>)
    requires rest != []
    ensures JoinComma([[c] + rest[0]] + rest[1..]) == [c] + JoinComma(rest)
  {
    assert ([[c] + rest[0]] + rest[1..])[1..] == rest[1..];
  }

  /** Splitting loses nothing and leaves no comma behind. */
  lemma {:induction false} SplitIsExact(s: string)
    ensures JoinComma(SplitComma(s)) == s
    ensures forall i :: 0 <= i < |SplitComma(s)| ==> ',' !in SplitComma(s)[i]
  {
    if s != "" {
      SplitIsExact(s[1..]);
      var rest := SplitComma(s[1..]);
      JoinNewEntry(rest);
      JoinLongerEntry(s[0], rest);
      assert s == [s[0]] + s[1..];
    }
  }

  function TrimLeft(s: string): string
  {
    if s != "" && IsSpace(s[0]) then TrimLeft(s[1..]) else s
  }

  function TrimRight(s: string): string
  {
    if s != "" && IsSpace(s[|s| - 1]) then TrimRight(s[..|s| - 1]) else s
  }

  /** The entries of a managed_networks label. */
  function Entries(raw: string): seq<string>
  {
    var parts := SplitComma(raw);
    seq(|parts|, i requires 0 <= i < |parts| => TrimRight(TrimLeft(parts[i])))
  }

  predicate CutTo(part: string, i: nat, j: nat, e: string)
  {
    && i <= j <= |part| && e == part[i..j] && IsBlank(part[..i]) && IsBlank(part[j..])
    && (i < j ==> !IsSpace(part[i]) && !IsSpace(part[j - 1]))
  }

  /** `e` is `part` without the blanks around it. */
  ghost predicate TrimmedTo(part: string, e: string)
  {
    exists i, j :: CutTo(part, i, j, e)
  }

  lemma {:induction false} TrimLeftCuts(s: string) returns (i: nat)
    ensures i <= |s| && TrimLeft(s) == s[i..] && IsBlank(s[..i]) && (i < |s| ==> !IsSpace(s[i]))
  {
    i := 0;
    if s != "" && IsSpace(s[0]) {
      var k := TrimLeftCuts(s[1..]);
      i := k + 1;
      assert s[i..] == s[1..][k..] && s[..i] == [s[0]] + s[1..][..k];
    }
  }

  lemma {:induction false} TrimRightCuts(s: string) returns (j: nat)
    ensures j <= |s| && TrimRight(s) == s[..j] && IsBlank(s[j..]) && (j > 0 ==> !IsSpace(s[j - 1]))
  {
    j := |s|;
    if s != "" && IsSpace(s[|s| - 1]) {
      j := TrimRightCuts(s[..|s| - 1]);
      assert s[..j] == s[..|s| - 1][..j] && s[j..] == s[..|s| - 1][j..] + [s[|s| - 1]];
    }
  }

  lemma TrimIsExact(part: string)
    ensures TrimmedTo(part, TrimRight(TrimLeft(part)))
  {
    var i := TrimLeftCuts(part);
    var j := TrimRightCuts(part[i..]);
    assert part[i..][..j] == part[i..i + j] && part[i + j..] == part[i..][j..];
    assert CutTo(part, i, i + j, TrimRight(TrimLeft(part)));
  }

  /** What begins and ends without a blank is not cut into. */
  lemma CutWithin(part: string, i: nat, j: nat, d: string, k: nat, l: nat, e: string)
    requires CutTo(part, i, j, d) && CutTo(part, k, l, e) && i < j
    ensures k <= i && j <= l
  {
  }

  lemma TrimmedIsUnique(part: string, d: string, e: string)
    requires TrimmedTo(part, d) && TrimmedTo(part, e)
    ensures d == e
  {
    var i, j :| CutTo(part, i, j, d);
    var k, l :| CutTo(part, k, l, e);
    if i < j { CutWithin(part, i, j, d, k, l, e); }
    if k < l { CutWithin(part, k, l, e, i, j, d); }
  }

  /** The entries are the parts between the commas, without the blanks around each. */
  lemma EntriesAreTrimmedParts(raw: string)
    ensures var parts, es := SplitComma(raw), Entries(raw);
            JoinComma(parts) == raw && |es| == |parts| && forall i :: 0 <= i < |es| ==> ',' !in parts[i] && TrimmedTo(parts[i], es[i])
  {
    SplitIsExact(raw);
    forall i | 0 <= i < |Entries(raw)| ensures TrimmedTo(SplitComma(raw)[i], Entries(raw)[i]) { TrimIsExact(SplitComma(raw)[i]); }
  }

  lemma {:induction false} SplitOfPart(part: string, rest: string)
    requires ',' !in part
    ensures SplitComma(part + [','] + rest) == [part] + SplitComma(rest) && SplitComma(part) == [part]
  {
    var s := part + [','] + rest;
    if part == "" {
      assert s[1..] == rest;
    } else {
      SplitOfPart(part[1..], rest);
      assert s[1..] == part[1..] + [','] + rest;
      assert [part[0]] + part[1..] == part;
    }
  }

  /** Joining and splitting gives the parts back. */
  lemma {:induction false} SplitOfJoin(parts: seq<string>)
    requires parts != [] && forall i :: 0 <= i < |parts| ==> ',' !in parts[i]
    ensures SplitComma(JoinComma(parts)) == parts
  {
    SplitOfPart(parts[0], if |parts| == 1 then "" else JoinComma(parts[1..]));
    if |parts| > 1 {
      SplitOfJoin(parts[1..]);
      assert JoinComma(parts) == parts[0] + [','] + JoinComma(parts[1..]);
    }
  }

  /** The same parts but for blanks around them. */
  ghost predicate SameParts(a: seq<string>, b: seq<string>)
  {
    && a != [] && |a| == |b| && (forall i :: 0 <= i < |a| ==> ',' !in a[i] && ',' !in b[i])
    && forall i :: 0 <= i < |a| ==> SameTrimmed(a[i], b[i])
  }

  ghost predicate SameTrimmed(a: string, b: string)
  {
    exists e :: TrimmedTo(a, e) && TrimmedTo(b, e)
  }

  lemma SameScopeEntries(a: seq<string>, b: seq<string>)
    requires SameParts(a, b)
    ensures Entries(JoinComma(a)) == Entries(JoinComma(b))
  {
    SplitOfJoin(a);
    SplitOfJoin(b);
    var x, y := Entries(JoinComma(a)), Entries(JoinComma(b));
    forall i | 0 <= i < |a| ensures x[i] == y[i] {
      assert SameTrimmed(a[i], b[i]);
      var e :| TrimmedTo(a[i], e) && TrimmedTo(b[i], e);
      TrimIsExact(a[i]);
      TrimIsExact(b[i]);
      TrimmedIsUnique(a[i], e, x[i]);
      TrimmedIsUnique(b[i], e, y[i]);
    }
    assert x == y;
  }

  lemma EntriesDecide(x: string, y: string, project: string, attached: Networks)
    requires Entries(x) == Entries(y)
    ensures PolicyNetworks(Some(x), project, attached) == PolicyNetworks(Some(y), project, attached)
    ensures ValidScope(Some(x), project, attached) <==> ValidScope(Some(y), project, attached)
  {
    assert Enforceable(x, project, attached) <==> Enforceable(y, project, attached);
  }

  /** Two labels whose parts are the same but for blanks around them select the
      same networks, and are valid alike. */
  lemma BlanksDoNotMatter(a: seq<string>, b: seq<string>, project: string, attached: Networks)
    requires SameParts(a, b)
    ensures var x, y := Some(JoinComma(a)), Some(JoinComma(b));
            && PolicyNetworks(x, project, attached) == PolicyNetworks(y, project, attached)
            && (ValidScope(x, project, attached) <==> ValidScope(y, project, attached))
  {
    SameScopeEntries(a, b);
    EntriesDecide(JoinComma(a), JoinComma(b), project, attached);
  }

  // ----- resolveManagedNetworks -----

  datatype ScopeError =
    | EmptyEntry | DuplicateEntry | NotAttached | UsesHost | NoSettings | DuplicateNetwork
    | SharedAddress | NoEndpoints | BadAddress

  predicate Usable(name: string, project: string, attached: Networks)
  {
    && name != "" && FindNetwork(name, project, attached).Some?
    && FindNetwork(name, project, attached).value != HOST
    && attached[FindNetwork(name, project, attached).value].Some?
  }

  /** The Docker network ID behind a name, "" if there is none. */
  function NetworkIDOf(name: string, project: string, attached: Networks): string
  {
    var n := FindNetwork(name, project, attached);
    if n.Some? && attached[n.value].Some? then attached[n.value].value.networkID else ""
  }

  predicate Distinguished(a: string, b: string, project: string, attached: Networks)
  {
    && a != b && FindNetwork(a, project, attached) != FindNetwork(b, project, attached)
    && (NetworkIDOf(a, project, attached) == "" || NetworkIDOf(a, project, attached) != NetworkIDOf(b, project, attached))
  }

  /** The first `n` names resolve to usable, pairwise distinct Docker networks. */
  predicate Resolvable(names: seq<string>, n: nat, project: string, attached: Networks)
    requires n <= |names|
  {
    && (forall i :: 0 <= i < n ==> Usable(names[i], project, attached))
    && forall i, j :: 0 <= i < j < n ==> Distinguished(names[i], names[j], project, attached)
  }

  predicate Requested(names: seq<string>, n: nat, project: string, attached: Networks, actual: string)
    requires n <= |names|
  {
    exists i :: 0 <= i < n && FindNetwork(names[i], project, attached) == Some(actual)
  }

  /** The attached endpoints that the first `n` names select. */
  function Selected(names: seq<string>, n: nat, project: string, attached: Networks): Networks
    requires n <= |names|
  {
    map a | a in attached && Requested(names, n, project, attached, a) :: attached[a]
  }

  /** resolveManagedNetworks; `raw` is the managed_networks label, if present. */
  method ResolveManagedNetworks(raw: Option<string>, project: string, attached: Networks)
    returns (r: Result<Networks, ScopeError>)
    ensures raw.None? ==> r == Ok(attached)
    ensures raw.Some? ==> (r.Ok? <==> ValidLabel(raw.value, project, attached))
    ensures raw.Some? && r.Ok? ==> r.value == Labelled(raw.value, project, attached)
  {
    if raw.None? { return Ok(attached); }
    r := ResolveEntries(Entries(raw.value), project, attached);
  }

  method ResolveEntries(names: seq<string>, project: string, attached: Networks) returns (r: Result<Networks, ScopeError>)
    ensures r.Ok? <==> Resolvable(names, |names|, project, attached)
    ensures r.Ok? ==> r.value == Selected(names, |names|, project, attached)
  {
    var selected: Networks, requested: set<string>, selectedIDs: set<string> := map[], {}, {};
    for i := 0 to |names|
      invariant Resolvable(names, i, project, attached)
      invariant selected == Selected(names, i, project, attached)
      invariant forall x :: x in requested <==> Asked(names, i, x)
      invariant forall x :: x in selectedIDs <==> x != "" && IDTaken(names, i, project, attached, x)
    {
      var name := names[i];
      if name in requested { Conflict(names, i, project, attached); return Err(DuplicateEntry); }
      var endpoint := SelectEntry(name, project, attached);
      if endpoint.Err? { return Err(endpoint.error); }
      var actualName, networkID := endpoint.value.0, endpoint.value.1;
      if actualName in selected || (networkID != "" && networkID in selectedIDs) {
        Conflict(names, i, project, attached);
        return Err(DuplicateNetwork);
      }
      OneMore(names, i, project, attached);
      requested := requested + {name};
      if networkID != "" { selectedIDs := selectedIDs + {networkID}; }
      selected := selected[actualName := attached[actualName]];
    }
    return Ok(selected);
  }

  predicate Asked(names: seq<string>, n: nat, x: string)
    requires n <= |names|
  {
    exists i :: 0 <= i < n && names[i] == x
  }

  predicate IDTaken(names: seq<string>, n: nat, project: string, attached: Networks, id: string)
    requires n <= |names|
  {
    exists i :: 0 <= i < n && NetworkIDOf(names[i], project, attached) == id
  }

  lemma OneMore(names: seq<string>, i: nat, project: string, attached: Networks)
    requires i < |names| && Resolvable(names, i, project, attached) && Usable(names[i], project, attached)
    requires !Asked(names, i, names[i])
    requires !Requested(names, i, project, attached, FindNetwork(names[i], project, attached).value)
    requires var id := NetworkIDOf(names[i], project, attached); id == "" || !IDTaken(names, i, project, attached, id)
    ensures Resolvable(names, i + 1, project, attached)
    ensures forall x :: Asked(names, i + 1, x) <==> Asked(names, i, x) || x == names[i]
    ensures forall x :: IDTaken(names, i + 1, project, attached, x)
                        <==> IDTaken(names, i, project, attached, x) || x == NetworkIDOf(names[i], project, attached)
    ensures var a := FindNetwork(names[i], project, attached).value;
            Selected(names, i + 1, project, attached) == Selected(names, i, project, attached)[a := attached[a]]
  {
    forall k | 0 <= k < i ensures Distinguished(names[k], names[i], project, attached) {
      assert Usable(names[k], project, attached);
    }
  }

  lemma Conflict(names: seq<string>, i: nat, project: string, attached: Networks)
    requires i < |names|
    requires || Asked(names, i, names[i])
             || (exists a :: FindNetwork(names[i], project, attached) == Some(a) && Requested(names, i, project, attached, a))
             || (NetworkIDOf(names[i], project, attached) != ""
                 && IDTaken(names, i, project, attached, NetworkIDOf(names[i], project, attached)))
    ensures !Resolvable(names, |names|, project, attached)
  {
    var k :| 0 <= k < i && !Distinguished(names[k], names[i], project, attached);
  }

  /** The checks on one entry by itself. */
  method SelectEntry(name: string, project: string, attached: Networks) returns (r: Result<(string, string), ScopeError>)
    ensures r.Ok? <==> Usable(name, project, attached)
    ensures r.Ok? ==> FindNetwork(name, project, attached) == Some(r.value.0)
    ensures r.Ok? ==> r.value.1 == NetworkIDOf(name, project, attached)
  {
    if name == "" { return Err(EmptyEntry); }
    var found := FindNetwork(name, project, attached);
    if found.None? { return Err(NotAttached); }
    if found.value == HOST { return Err(UsesHost); }
    var endpoint := attached[found.value];
    if endpoint.None? { return Err(NoSettings); }
    return Ok((found.value, endpoint.value.networkID));
  }

  predicate ValidLabel(raw: string, project: string, attached: Networks)
  {
    Resolvable(Entries(raw), |Entries(raw)|, project, attached)
  }

  /** The attached network that an entry names. */
  predicate Names(entry: string, project: string, attached: Networks, n: string)
  {
    n in attached && (n == entry || (n == project + "_" + entry && entry !in attached))
  }

  /** Different networks, and not the same Docker network as far as their IDs tell. */
  predicate DifferentNetworks(attached: Networks, n: string, k: string)
    requires n in attached && k in attached
  {
    n != k && (attached[n].Some? && attached[k].Some? ==>
                 attached[n].value.networkID == "" || attached[n].value.networkID != attached[k].value.networkID)
  }

  /** The entry names an attached network other than the host's, with settings. */
  ghost predicate NamesUsable(entry: string, project: string, attached: Networks)
  {
    entry != "" && exists n :: Names(entry, project, attached, n) && n != HOST && attached[n].Some?
  }

  ghost predicate NameDifferent(a: string, b: string, project: string, attached: Networks)
  {
    && a != b
    && forall n, k :: Names(a, project, attached, n) && Names(b, project, attached, k) ==> DifferentNetworks(attached, n, k)
  }

  lemma UsableExactly(entry: string, project: string, attached: Networks)
    ensures Usable(entry, project, attached) <==> NamesUsable(entry, project, attached)
  {
    forall n ensures Names(entry, project, attached, n) <==> FindNetwork(entry, project, attached) == Some(n) {
      FindNetworkExactly(entry, project, attached, n);
    }
  }

  lemma DistinguishedExactly(a: string, b: string, project: string, attached: Networks)
    requires Usable(a, project, attached) && Usable(b, project, attached)
    ensures Distinguished(a, b, project, attached) <==> NameDifferent(a, b, project, attached)
  {
    var x, y := FindNetwork(a, project, attached).value, FindNetwork(b, project, attached).value;
    assert Names(a, project, attached, x) && Names(b, project, attached, y);
    forall n | Names(a, project, attached, n) ensures n == x { FindNetworkExactly(a, project, attached, n); }
    forall n | Names(b, project, attached, n) ensures n == y { FindNetworkExactly(b, project, attached, n); }
  }

  /** A label is accepted exactly if each entry names an attached network other than
      the host's, with settings, and no two entries name the same Docker network. */
  lemma AcceptedLabels(raw: string, project: string, attached: Networks)
    ensures ValidLabel(raw, project, attached) <==>
              var es := Entries(raw);
              && (forall i :: 0 <= i < |es| ==> NamesUsable(es[i], project, attached))
              && forall i, j :: 0 <= i < j < |es| ==> NameDifferent(es[i], es[j], project, attached)
  {
    var es := Entries(raw);
    forall i | 0 <= i < |es| ensures Usable(es[i], project, attached) <==> NamesUsable(es[i], project, attached) {
      UsableExactly(es[i], project, attached);
    }
    forall i, j | 0 <= i < j < |es| && Usable(es[i], project, attached) && Usable(es[j], project, attached)
      ensures Distinguished(es[i], es[j], project, attached) <==> NameDifferent(es[i], es[j], project, attached)
    {
      DistinguishedExactly(es[i], es[j], project, attached);
    }
  }

  function Labelled(raw: string, project: string, attached: Networks): Networks
  {
    Selected(Entries(raw), |Entries(raw)|, project, attached)
  }

  // ----- collectManagedIPv4Addresses -----

  function KeyOf(a: Addr32): Key { Big(a, 4) }

  predicate HasV4(m: Networks, n: string)
  {
    n in m && m[n].Some? && m[n].value.ip.V4?
  }

  /** The usable IPv4 keys, by network. */
  function Collected(m: Networks): map<string, Key>
  {
    map n | n in m && HasV4(m, n) :: KeyOf(m[n].value.ip.addr)
  }

  predicate AllV4(m: Networks)
  {
    forall n :: n in m ==> HasV4(m, n) && !m[n].value.hasIPv6
  }

  /** The usable keys are returned even when some endpoint is malformed. */
  method CollectManagedIPv4Addresses(networks: Networks) returns (addrs: map<string, Key>, ok: bool)
    ensures addrs == Collected(networks)
    ensures ok <==> AllV4(networks)
    ensures ok <==> forall n :: n in networks ==> networks[n].Some? && networks[n].value.ip.V4? && !networks[n].value.hasIPv6
  {
    addrs, ok := map[], true;
    var todo := networks.Keys;
    while todo != {}
      invariant todo <= networks.Keys
      invariant addrs == map n | n in networks && n !in todo && HasV4(networks, n) :: KeyOf(networks[n].value.ip.addr)
      invariant ok <==> forall n :: n in networks && n !in todo ==> HasV4(networks, n) && !networks[n].value.hasIPv6
    {
      var name :| name in todo;
      todo := todo - {name};
      var endpoint := networks[name];
      if endpoint.None? {
        ok := false;
      } else {
        if endpoint.value.hasIPv6 { ok := false; }
        match endpoint.value.ip
        case V4(a) => addrs := addrs[name := KeyOf(a)];
        case _ => ok := false;
      }
    }
  }

  // ----- validateScopedAddressUniqueness -----

  datatype Identity = ById(id: string) | ByName(name: string)

  function IdentityOf(m: Networks, n: string): Identity
    requires n in m
  {
    if m[n].Some? && m[n].value.networkID != "" then ById(m[n].value.networkID) else ByName(n)
  }

  /** Endpoints with the same address are the same Docker network. */
  predicate Agree(a: Networks, x: string, b: Networks, y: string)
    requires x in a && y in b
  {
    HasV4(a, x) && HasV4(b, y) && a[x].value.ip == b[y].value.ip ==> IdentityOf(a, x) == IdentityOf(b, y)
  }

  predicate AddressesUnique(selected: Networks, attached: Networks)
  {
    && (forall x, y :: x in selected && y in selected ==> Agree(selected, x, selected, y))
    && forall x, y :: x in selected && y in attached && y !in selected ==> Agree(selected, x, attached, y)
  }

  method ValidateScopedAddressUniqueness(selected: Networks, attached: Networks) returns (ok: bool)
    ensures ok <==> AddressesUnique(selected, attached)
  {
    var byAddr: map<Addr32, Identity> := map[];
    var todo := selected.Keys;
    while todo != {}
      invariant todo <= selected.Keys
      invariant forall x :: x in selected && x !in todo && HasV4(selected, x) ==>
                  selected[x].value.ip.addr in byAddr && byAddr[selected[x].value.ip.addr] == IdentityOf(selected, x)
      invariant forall a :: a in byAddr ==> exists x :: x in selected && x !in todo && HasV4(selected, x) && selected[x].value.ip.addr == a
    {
      var name :| name in todo;
      if HasV4(selected, name) {
        var a := selected[name].value.ip.addr;
        if a in byAddr && byAddr[a] != IdentityOf(selected, name) {
          var x :| x in selected && x !in todo && HasV4(selected, x) && selected[x].value.ip.addr == a;
          assert !Agree(selected, x, selected, name);
          return false;
        }
        byAddr := byAddr[a := IdentityOf(selected, name)];
      }
      todo := todo - {name};
    }
    var rest := attached.Keys;
    while rest != {}
      invariant rest <= attached.Keys
      invariant forall x, y :: x in selected && y in attached && y !in selected && y !in rest ==> Agree(selected, x, attached, y)
    {
      var name :| name in rest;
      if name !in selected && HasV4(attached, name) && attached[name].value.ip.addr in byAddr
         && byAddr[attached[name].value.ip.addr] != IdentityOf(attached, name) {
        var x :| x in selected && HasV4(selected, x) && selected[x].value.ip.addr == attached[name].value.ip.addr;
        assert !Agree(selected, x, attached, name);
        return false;
      }
      rest := rest - {name};
    }
    return true;
  }

  // ----- the scope of a policy -----

  /** An explicit scope that can be enforced exactly. */
  predicate Enforceable(raw: string, project: string, attached: Networks)
  {
    && ValidLabel(raw, project, attached)
    && AddressesUnique(Labelled(raw, project, attached), attached)
    && AllV4(Labelled(raw, project, attached))
  }

  predicate Scoped(raw: Option<string>, project: string, attached: Networks)
  {
    raw.Some? && Enforceable(raw.value, project, attached)
  }

  /** The selected endpoints, or every attached one if the label is absent or bad. */
  function PolicyNetworks(raw: Option<string>, project: string, attached: Networks): Networks
  {
    if Scoped(raw, project, attached) then Labelled(raw.value, project, attached) else attached
  }

  /** The scope admits a policy, not only the enforcement floor. */
  predicate ValidScope(raw: Option<string>, project: string, attached: Networks)
  {
    && (raw.Some? ==> Enforceable(raw.value, project, attached))
    && PolicyNetworks(raw, project, attached) != map[] && AllV4(PolicyNetworks(raw, project, attached))
  }

  /** The scope part of createContainerRules: whatever the error, the keys of some
      endpoints are returned for the floor. */
  method PolicyScope(raw: Option<string>, project: string, attached: Networks)
    returns (networks: Networks, addrs: map<string, Key>, valid: bool)
    ensures networks == PolicyNetworks(raw, project, attached)
    ensures addrs == Collected(networks)
    ensures valid <==> ValidScope(raw, project, attached)
  {
    var resolved := ResolveManagedNetworks(raw, project, attached);
    var scopeOk := resolved.Ok?;
    if scopeOk && raw.Some? {
      scopeOk := ValidateScopedAddressUniqueness(resolved.value, attached);
      if scopeOk {
        var selectedAddrs;
        selectedAddrs, scopeOk := CollectManagedIPv4Addresses(resolved.value);
      }
    }
    networks := if scopeOk then resolved.value else attached;
    var addressOk;
    addrs, addressOk := CollectManagedIPv4Addresses(networks);
    valid := scopeOk && addressOk && networks != map[];
  }

  /** resolveValidManagedNetworks, for a peer: valid exactly when the peer's own
      policy scope is, and then with the same endpoints. */
  method ResolveValidManagedNetworks(raw: Option<string>, project: string, attached: Networks)
    returns (r: Result<Networks, ScopeError>)
    ensures r.Ok? <==> ValidScope(raw, project, attached)
    ensures r.Ok? ==> r.value == PolicyNetworks(raw, project, attached)
  {
    var resolved := ResolveManagedNetworks(raw, project, attached);
    if resolved.Err? { return resolved; }
    if resolved.value == map[] { return Err(NoEndpoints); }
    if raw.Some? {
      var unique := ValidateScopedAddressUniqueness(resolved.value, attached);
      if !unique { return Err(SharedAddress); }
    }
    var addrs, ok := CollectManagedIPv4Addresses(resolved.value);
    if !ok { return Err(BadAddress); }
    return resolved;
  }

  /** The keys dispatched to the container's chain. */
  function DispatchedKeys(raw: Option<string>, project: string, attached: Networks): set<Key>
  {
    Collected(PolicyNetworks(raw, project, attached)).Values
  }

  lemma KeyOfInjective(a: Addr32, b: Addr32)
    requires KeyOf(a) == KeyOf(b)
    ensures a == b
  {
    Compiler.WidthBound(MAX_ADDR, 4);
    BigRoundTrip(a, 4);
    BigRoundTrip(b, 4);
  }

  /** An endpoint contributes its IPv4 address, in the four octets of the header field. */
  lemma CollectedExactly(m: Networks, n: string)
    ensures n in Collected(m) <==> n in m && m[n].Some? && m[n].value.ip.V4?
    ensures n in Collected(m) ==> |Collected(m)[n]| == 4 && Val(Collected(m)[n]) == m[n].value.ip.addr
  {
    if HasV4(m, n) {
      Compiler.WidthBound(MAX_ADDR, 4);
      BigRoundTrip(m[n].value.ip.addr, 4);
    }
  }

  predicate HasKey(m: Networks, n: string, k: Key)
  {
    HasV4(m, n) && KeyOf(m[n].value.ip.addr) == k
  }

  lemma CollectedKeys(m: Networks)
    ensures forall k :: k in Collected(m).Values <==> exists n :: n in m && HasKey(m, n, k)
  {
    var c := Collected(m);
    forall k | k in c.Values ensures exists n :: n in m && HasKey(m, n, k) {
      var n :| n in c && c[n] == k;
      assert HasKey(m, n, k);
    }
    forall n, k | n in m && HasKey(m, n, k) ensures k in c.Values { assert n in c && c[n] == k; }
  }

  /** Scope exactness. An enforceable label dispatches exactly the addresses of
      the requested endpoints, and an endpoint outside the scope shares a key
      only if it is the same Docker network as one inside. Any scope error
      dispatches every usable address of every attached endpoint. */
  lemma ScopeIsExact(raw: Option<string>, project: string, attached: Networks, k: Key)
    ensures Scoped(raw, project, attached) ==>
              (k in DispatchedKeys(raw, project, attached) <==>
               exists i :: 0 <= i < |Entries(raw.value)| &&
                 HasKey(attached, FindNetwork(Entries(raw.value)[i], project, attached).value, k))
    ensures Scoped(raw, project, attached) && k in DispatchedKeys(raw, project, attached) ==>
              forall n :: n in attached && n !in PolicyNetworks(raw, project, attached) && HasKey(attached, n, k) ==>
                attached[n].value.networkID != ""
                && exists s :: s in PolicyNetworks(raw, project, attached) && HasKey(attached, s, k)
                               && attached[s].value.networkID == attached[n].value.networkID
    ensures !Scoped(raw, project, attached) ==>
              (k in DispatchedKeys(raw, project, attached) <==> exists n :: n in attached && HasKey(attached, n, k))
  {
    CollectedKeys(PolicyNetworks(raw, project, attached));
    if Scoped(raw, project, attached) {
      var names, m := Entries(raw.value), PolicyNetworks(raw, project, attached);
      if k in DispatchedKeys(raw, project, attached) {
        var s :| s in m && HasKey(m, s, k);
        assert Requested(names, |names|, project, attached, s) && HasKey(attached, s, k);
        forall n | n in attached && n !in m && HasKey(attached, n, k)
          ensures attached[n].value.networkID != "" && attached[s].value.networkID == attached[n].value.networkID
        {
          KeyOfInjective(m[s].value.ip.addr, attached[n].value.ip.addr);
          assert Agree(m, s, attached, n);
        }
      }
      forall i | 0 <= i < |names| && HasKey(attached, FindNetwork(names[i], project, attached).value, k)
        ensures k in DispatchedKeys(raw, project, attached)
      {
        var a := FindNetwork(names[i], project, attached).value;
        assert Requested(names, |names|, project, attached, a) && HasKey(m, a, k);
      }
    }
  }
}
