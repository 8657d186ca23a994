/** The server configuration: validation, defaults and the user table (server/config.go). */
module Config {
  import opened Wire
  import opened Protocol

  const DEFAULT_LISTEN := "127.0.0.1:4567"
  const DEFAULT_TUN_NAME := "iwand0"
  const MAX_INTERFACE_NAME := 15

  datatype IpAddr = V4(v4: Address) | V6(v6: Bytes)

  // Go's address parsers, which the model takes as given: address, prefix (its address part) and listen address.
  datatype Parsers = Parsers(addr: string -> Option<IpAddr>, prefix: string -> Option<IpAddr>, listen: string -> bool)

  datatype UserConfig = UserConfig(username: Bytes, password: Bytes, address: string, allowEncrypt: Option<bool>)

  datatype User = User(username: Bytes, password: Bytes, address: Address, allowEncrypt: bool, xorKey: XorKey)

  datatype Normalized = Normalized(
    listen: string, mtu: nat, dns: seq<Address>,
    exitEnabled: bool, tunName: string, tunAddress: Address, exitMtu: nat, strictSource: bool,
    users: map<Bytes, User>)

  // ----- What a configuration has to satisfy -----

  predicate HostAddress(a: Option<IpAddr>)
  {
    a.Some? && a.value.V4? && a.value.v4 != NO_ADDRESS
  }

  predicate UserOk(p: Parsers, u: UserConfig)
  {
    u.username != [] && u.password != [] && u.address != "" && HostAddress(p.addr(u.address))
  }

  // Every user is well formed and no two share a name or an address.
  ghost predicate UserListOk(p: Parsers, users: seq<UserConfig>)
  {
    && (forall i | 0 <= i < |users| :: UserOk(p, users[i]))
    && (forall i, j | 0 <= i < j < |users| :: users[i].username != users[j].username)
    && (forall i, j | 0 <= i < j < |users| :: p.addr(users[i].address) != p.addr(users[j].address))
  }

  predicate DnsOk(p: Parsers, raw: string)
  {
    p.addr(raw).Some? && p.addr(raw).value.V4?
  }

  predicate MtuOk(mtu: nat)
  {
    MIN_MTU <= mtu <= MAX_MTU
  }

  function OrElse(n: nat, default: nat): nat
  {
    if n == 0 then default else n
  }

  function OrText(s: string, default: string): string
  {
    if s == "" then default else s
  }

  // The table the server works with: keyed by name, no address assigned twice, keys derived from the credentials.
  ghost predicate UsersOk(h: Hash, users: map<Bytes, User>)
  {
    && (forall name | name in users :: users[name].username == name && name != [] && users[name].address != NO_ADDRESS)
    && (forall name | name in users :: users[name].xorKey == DerivedKey(h, name, users[name].password))
    && (forall a, b | a in users && b in users && users[a].address == users[b].address :: a == b)
  }

  class ServerConfig {
    var listen: string
    var mtu: nat
    var dns: seq<string>
    var exitEnabled: bool
    var tunName: string
    var tunAddress: string
    var exitMtu: nat
    var strictSource: Option<bool>
    var users: seq<UserConfig>

    constructor Copy(c: ServerConfig)
      ensures listen == c.listen && mtu == c.mtu && dns == c.dns && exitEnabled == c.exitEnabled && tunName == c.tunName
      ensures tunAddress == c.tunAddress && exitMtu == c.exitMtu && strictSource == c.strictSource && users == c.users
    {
      listen, mtu, dns, exitEnabled, tunName := c.listen, c.mtu, c.dns, c.exitEnabled, c.tunName;
      tunAddress, exitMtu, strictSource, users := c.tunAddress, c.exitMtu, c.strictSource, c.users;
    }

    // Acceptable once the defaults are filled in.
    ghost predicate ExitOk(p: Parsers, mtu': nat)
      reads this
    {
      exitEnabled ==>
        && |OrText(tunName, DEFAULT_TUN_NAME)| <= MAX_INTERFACE_NAME
        && tunAddress != "" && HostAddress(p.prefix(tunAddress))
        && MtuOk(OrElse(exitMtu, mtu'))
    }

    ghost predicate Acceptable(p: Parsers)
      reads this
    {
      && MtuOk(OrElse(mtu, DEFAULT_MTU))
      && ExitOk(p, OrElse(mtu, DEFAULT_MTU))
      && p.listen(OrText(listen, DEFAULT_LISTEN))
      && users != [] && UserListOk(p, users)
      && (forall i | 0 <= i < |dns| :: DnsOk(p, dns[i])) && |dns| <= 2
    }

    method ValidateExit(p: Parsers) returns (ok: bool)
      modifies this`tunName, this`exitMtu
      ensures ok == old(ExitOk(p, mtu))
      ensures ok && exitEnabled ==>
                tunName == old(OrText(tunName, DEFAULT_TUN_NAME)) && exitMtu == old(OrElse(exitMtu, mtu))
      ensures !exitEnabled ==> tunName == old(tunName) && exitMtu == old(exitMtu)
    {
      if !exitEnabled {
        return true;
      }
      if tunName == "" {
        tunName := DEFAULT_TUN_NAME;
      }
      if |tunName| > MAX_INTERFACE_NAME || tunAddress == "" {
        return false;
      }
      var prefix := p.prefix(tunAddress);
      if prefix.None? || !prefix.value.V4? || prefix.value.v4 == NO_ADDRESS {
        return false;
      }
      if exitMtu == 0 {
        exitMtu := mtu;
      }
      return MtuOk(exitMtu);
    }

    method Validate(p: Parsers) returns (ok: bool)
      modifies this`listen, this`mtu, this`tunName, this`exitMtu
      ensures ok == old(Acceptable(p))
      ensures ok ==> listen == old(OrText(listen, DEFAULT_LISTEN)) && mtu == old(OrElse(mtu, DEFAULT_MTU))
      ensures ok && exitEnabled ==>
                tunName == old(OrText(tunName, DEFAULT_TUN_NAME)) && exitMtu == old(OrElse(exitMtu, OrElse(mtu, DEFAULT_MTU)))
      ensures !exitEnabled ==> tunName == old(tunName) && exitMtu == old(exitMtu)
    {
      if listen == "" {
        listen := DEFAULT_LISTEN;
      }
      if mtu == 0 {
        mtu := DEFAULT_MTU;
      }
      if !MtuOk(mtu) {
        return false;
      }
      var exitOk := ValidateExit(p);
      if !exitOk || !p.listen(listen) || |users| == 0 {
        return false;
      }
      var usersOk := ValidateUsers(p, users);
      if !usersOk {
        return false;
      }
      for i := 0 to |dns|
        invariant forall k | 0 <= k < i :: DnsOk(p, dns[k])
      {
        var parsed := p.addr(dns[i]);
        if parsed.None? || !parsed.value.V4? {
          return false;
        }
      }
      return |dns| <= 2;
    }

    // Works on a copy, as a value receiver does. A configuration is normalised exactly when it is acceptable, and
    // the user table then has exactly the listed users, with the guarantees the server relies on.
    method Normalize(p: Parsers, h: Hash) returns (r: Option<Normalized>)
      ensures r.Some? <==> Acceptable(p)
      ensures r.Some? ==>
                && UsersOk(h, r.value.users)
                && r.value.mtu == (if mtu == 0 then 1400 else mtu) && 46 <= r.value.mtu <= 1600
                && r.value.listen == (if listen == "" then "127.0.0.1:4567" else listen)
                && |r.value.dns| == |dns| <= 2 && (forall i | 0 <= i < |dns| :: p.addr(dns[i]) == Some(V4(r.value.dns[i])))
                && r.value.exitEnabled == exitEnabled
                && r.value.strictSource == (strictSource.None? || strictSource.value)
                && r.value.users.Keys == (set i | 0 <= i < |users| :: users[i].username)
      ensures r.Some? && exitEnabled ==>
                && r.value.tunName == (if tunName == "" then "iwand0" else tunName) && |r.value.tunName| <= 15
                && p.prefix(tunAddress) == Some(V4(r.value.tunAddress)) && r.value.tunAddress != NO_ADDRESS
                && r.value.exitMtu == (if exitMtu == 0 then r.value.mtu else exitMtu) && 46 <= r.value.exitMtu <= 1600
      ensures r.Some? && !exitEnabled ==>
                r.value.tunName == tunName && r.value.tunAddress == NO_ADDRESS && r.value.exitMtu == exitMtu
      ensures r.Some? ==> forall i | 0 <= i < |users| ::
                var u := r.value.users[users[i].username];
                && users[i].username != [] && users[i].password != [] && u.password == users[i].password && Some(V4(u.address)) == p.addr(users[i].address)
                && u.allowEncrypt == (users[i].allowEncrypt.None? || users[i].allowEncrypt.value)
    {
      var c := new ServerConfig.Copy(this);
      var ok := c.Validate(p);
      if !ok {
        return None;
      }
      var tunAddress: Address := NO_ADDRESS;
      if c.exitEnabled {
        tunAddress := p.prefix(c.tunAddress).value.v4;
      }
      var servers: seq<Address> := [];
      for i := 0 to |c.dns|
        invariant |servers| == i && forall k | 0 <= k < i :: p.addr(dns[k]) == Some(V4(servers[k]))
      {
        servers := servers + [p.addr(c.dns[i]).value.v4];
      }
      var table := BuildUsers(p, h, c.users);
      return Some(Normalized(c.listen, c.mtu, servers, c.exitEnabled, c.tunName, tunAddress, c.exitMtu,
                             c.strictSource.None? || c.strictSource.value, table));
    }
  }

  ghost function Names(users: seq<UserConfig>): set<Bytes>
  {
    set k | 0 <= k < |users| :: users[k].username
  }

  ghost function Addresses(p: Parsers, users: seq<UserConfig>): set<Option<IpAddr>>
  {
    set k | 0 <= k < |users| :: p.addr(users[k].address)
  }

  lemma OneMoreUser(p: Parsers, users: seq<UserConfig>, u: UserConfig)
    requires UserListOk(p, users)
    ensures UserListOk(p, users + [u]) <==>
            UserOk(p, u) && u.username !in Names(users) && p.addr(u.address) !in Addresses(p, users)
    ensures Names(users + [u]) == Names(users) + {u.username}
    ensures Addresses(p, users + [u]) == Addresses(p, users) + {p.addr(u.address)}
  {
    var more := users + [u];
    assert more[|users|] == u && forall k | 0 <= k < |users| :: more[k] == users[k];
    if UserListOk(p, more) {
      assert UserOk(p, more[|users|]);
      forall k | 0 <= k < |users|
        ensures users[k].username != u.username && p.addr(users[k].address) != p.addr(u.address)
      {
        assert more[k].username != more[|users|].username;
      }
    }
  }

  lemma PrefixOk(p: Parsers, users: seq<UserConfig>, n: nat)
    requires n <= |users| && UserListOk(p, users)
    ensures UserListOk(p, users[..n])
  {
  }

  // The loop over the users, which remembers the names and addresses it has seen.
  method ValidateUsers(p: Parsers, users: seq<UserConfig>) returns (ok: bool)
    ensures ok == UserListOk(p, users)
  {
    hide UserListOk, Names, Addresses;
    var usernames: set<Bytes>, addresses: set<Address> := {}, {};
    assert UserListOk(p, users[..0]) && Names(users[..0]) == {} && Addresses(p, users[..0]) == {} by {
      NoUsers(p);
    }
    for i := 0 to |users|
      invariant UserListOk(p, users[..i])
      invariant usernames == Names(users[..i])
      invariant forall a :: a in addresses <==> Some(V4(a)) in Addresses(p, users[..i])
    {
      var user := users[i];
      OneMoreUser(p, users[..i], user);
      assert users[..i + 1] == users[..i] + [user];
      if UserListOk(p, users) {
        PrefixOk(p, users, i + 1);
      }
      if user.username == [] || user.password == [] || user.address == "" || user.username in usernames {
        return false;
      }
      usernames := usernames + {user.username};
      var address := p.addr(user.address);
      if address.None? || !address.value.V4? || address.value.v4 == NO_ADDRESS || address.value.v4 in addresses {
        return false;
      }
      addresses := addresses + {address.value.v4};
    }
    assert users[..|users|] == users;
    return true;
  }

  lemma NoUsers(p: Parsers)
    ensures UserListOk(p, []) && Names([]) == {} && Addresses(p, []) == {}
  {
  }

  method BuildUsers(p: Parsers, h: Hash, users: seq<UserConfig>) returns (table: map<Bytes, User>)
    requires UserListOk(p, users)
    ensures UsersOk(h, table)
    ensures table.Keys == set i | 0 <= i < |users| :: users[i].username
    ensures forall i | 0 <= i < |users| :: table[users[i].username] == UserEntry(p, h, users[i])
  {
    table := map[];
    for i := 0 to |users|
      invariant forall k | 0 <= k < i :: users[k].username in table && table[users[k].username] == UserEntry(p, h, users[k])
      invariant forall name | name in table :: exists k :: 0 <= k < i && users[k].username == name
    {
      table := table[users[i].username := UserEntry(p, h, users[i])];
    }
  }

  function UserEntry(p: Parsers, h: Hash, raw: UserConfig): User
    requires UserOk(p, raw)
  {
    User(raw.username, raw.password, p.addr(raw.address).value.v4,
         raw.allowEncrypt.None? || raw.allowEncrypt.value, DerivedKey(h, raw.username, raw.password))
  }
}
