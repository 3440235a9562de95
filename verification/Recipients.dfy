/** Test addresses: the Redis key of an address against its live record in Mongo. */
module Recipients {
  import opened Prelude
  import opened Calendar
  import opened Strings

  /** The stored fields of an address record that decide who owns it and how long it lives. */
  datatype Address = Address(expires: Option<Instant>, ip: string, owner: Option<string>)

  const KEY_PREFIX: string := "mailtester:rcpt:"

  function Normal(a: string): string { Lower(Strip(a, IsSpace)) }

  function AddressKey(a: string): string { KEY_PREFIX + Normal(a) }

  lemma KeysInjective(a: string, b: string)
    ensures AddressKey(a) == AddressKey(b) <==> Normal(a) == Normal(b)
  {
    assert AddressKey(a)[|KEY_PREFIX|..] == Normal(a);
    assert AddressKey(b)[|KEY_PREFIX|..] == Normal(b);
  }

  lemma NormalIdempotent(a: string)
    ensures Normal(Normal(a)) == Normal(a)
  {
    var s := Strip(a, IsSpace);
    StripIsStripped(a, IsSpace);
    LowerIsLower(s);
    LowerKeepsStripped(s, IsSpace);
    StripIsStripped(Lower(s), IsSpace);
    LowerIsLower(Lower(s));
  }

  /** Records, cache keys with their expiry, and the clock. */
  datatype Directory = Directory(records: map<string, Address>, keys: map<string, Instant>, clock: Instant)

  predicate LiveRecord(r: Address, now: Instant) { r.expires.Some? && r.expires.value > now }

  predicate LiveIn(records: map<string, Address>, now: Instant, to: string) {
    to in records && LiveRecord(records[to], now)
  }

  predicate AddressIsLive(d: Directory, to: string) { LiveIn(d.records, d.clock, to) }

  /** EXISTS on a key: it is gone once its time to live is over. */
  predicate KeyExists(d: Directory, key: string) { key in d.keys && d.clock < d.keys[key] }

  predicate LookupOk(d: Directory, to: string) { KeyExists(d, AddressKey(to)) }

  function OwnerKey(owner: Option<string>): Option<string> {
    if owner.Some? && owner.value != "" then owner else None
  }

  /** The records a new address replaces: all live ones of the owner, or of the IP when there is no owner. */
  predicate Replaced(r: Address, ip: string, owner: Option<string>, now: Instant) {
    && LiveRecord(r, now)
    && (if OwnerKey(owner).Some? then r.owner == owner else r.ip == ip)
  }

  function Previous(d: Directory, ip: string, owner: Option<string>): set<string> {
    set a | a in d.records && Replaced(d.records[a], ip, owner, d.clock)
  }

  function ExpireAll(records: map<string, Address>, gone: set<string>): map<string, Address> {
    map a | a in records :: if a in gone then records[a].(expires := None) else records[a]
  }

  function KeysOf(addresses: set<string>): set<string> { set a | a in addresses :: AddressKey(a) }

  /** Expire the records `gone`, delete the keys `dead`, then add one record and its key. */
  function Replace(d: Directory, gone: set<string>, dead: set<string>, address: string, key: string,
                   record: Address, until: Instant): Directory {
    Directory(ExpireAll(d.records, gone)[address := record], (d.keys - dead)[key := until], d.clock)
  }

  /** One whole /generate call. */
  function Generated(d: Directory, address: string, ip: string, owner: Option<string>, ttl: int): Directory {
    var gone := Previous(d, ip, owner);
    Replace(d, gone, KeysOf(gone), address, AddressKey(address),
            Address(Some(d.clock + ttl), ip, owner), d.clock + ttl)
  }

  /** The TTL index of Mongo removes records some time after they expire. */
  function Purged(d: Directory, address: string): Directory {
    if address in d.records && d.records[address].expires.Some? && d.records[address].expires.value <= d.clock
    then d.(records := d.records - {address})
    else d
  }

  /** Records are kept under normal addresses, and a record is live exactly as long as its key. */
  ghost predicate Agreed(d: Directory) {
    && (forall a {:trigger Normal(a)} :: a in d.records ==> Normal(a) == a)
    && (forall a {:trigger AgreedOn(d, a)} :: AgreedOn(d, a))
  }

  predicate AgreedAt(d: Directory, key: string, address: string) {
    && (KeyExists(d, key) <==> AddressIsLive(d, address))
    && (KeyExists(d, key) ==> d.records[address].expires == Some(d.keys[key]))
  }

  predicate AgreedOn(d: Directory, a: string) { AgreedAt(d, AddressKey(a), Normal(a)) }

  predicate SameAccount(r: Address, q: Address) {
    if OwnerKey(r.owner).Some? then r.owner == q.owner else OwnerKey(q.owner).None? && r.ip == q.ip
  }

  /** One live address per signed-in owner, and one live anonymous address per IP. */
  ghost predicate OneEach(records: map<string, Address>, now: Instant) {
    forall a, b {:trigger LiveIn(records, now, a), LiveIn(records, now, b)} ::
      LiveIn(records, now, a) && LiveIn(records, now, b) && SameAccount(records[a], records[b]) ==> a == b
  }

  ghost predicate DirectoryOk(d: Directory) { Agreed(d) && OneEach(d.records, d.clock) }

  /** Time passing and removals only shrink the live set. */
  lemma FewerLive(records: map<string, Address>, now: Instant, records': map<string, Address>, later: Instant)
    requires OneEach(records, now) && now <= later
    requires forall a :: a in records' ==> a in records && records'[a] == records[a]
    ensures OneEach(records', later)
  {
    forall a, b | LiveIn(records', later, a) && LiveIn(records', later, b) && SameAccount(records'[a], records'[b])
      ensures a == b
    {
      assert LiveIn(records, now, a) && LiveIn(records, now, b);
    }
  }

  lemma TickKeeps(d: Directory, to: Instant)
    requires DirectoryOk(d) && d.clock <= to
    ensures DirectoryOk(d.(clock := to))
  {
    var t := d.(clock := to);
    forall a ensures AgreedOn(t, a) { assert AgreedOn(d, a); }
    FewerLive(d.records, d.clock, t.records, to);
  }

  lemma PurgeKeeps(d: Directory, address: string)
    requires DirectoryOk(d)
    ensures DirectoryOk(Purged(d, address))
  {
    var t := Purged(d, address);
    forall a ensures AgreedOn(t, a) {
      assert AgreedOn(d, a);
      PurgeAgrees(d, address, AddressKey(a), Normal(a));
    }
    FewerLive(d.records, d.clock, t.records, t.clock);
  }

  lemma PurgeAgrees(d: Directory, address: string, key: string, a: string)
    requires AgreedAt(d, key, a)
    ensures AgreedAt(Purged(d, address), key, a)
  {}

  lemma ReplaceAgrees(d: Directory, gone: set<string>, dead: set<string>, address: string, key: string,
                      record: Address, until: Instant, k: string, a: string)
    requires AgreedAt(d, k, a) && record.expires == Some(until)
    requires k == key <==> a == address
    requires k in dead <==> a in gone
    ensures AgreedAt(Replace(d, gone, dead, address, key, record, until), k, a)
  {}

  lemma DeadExactly(d: Directory, gone: set<string>, a: string)
    requires Agreed(d) && gone <= d.records.Keys
    ensures AddressKey(a) in KeysOf(gone) <==> Normal(a) in gone
  {
    if AddressKey(a) in KeysOf(gone) {
      var g :| g in gone && AddressKey(g) == AddressKey(a);
      KeysInjective(g, a);
      assert Normal(g) == g;
    }
    if Normal(a) in gone {
      NormalIdempotent(a);
      KeysInjective(Normal(a), a);
    }
  }

  lemma GenerateAgrees(d: Directory, address: string, ip: string, owner: Option<string>, ttl: int, a: string)
    requires AgreedOn(d, a)
    requires AddressKey(a) == AddressKey(address) <==> Normal(a) == address
    requires var gone := Previous(d, ip, owner); AddressKey(a) in KeysOf(gone) <==> Normal(a) in gone
    ensures AgreedOn(Generated(d, address, ip, owner, ttl), a)
  {
    var gone := Previous(d, ip, owner);
    ReplaceAgrees(d, gone, KeysOf(gone), address, AddressKey(address), Address(Some(d.clock + ttl), ip, owner),
                  d.clock + ttl, AddressKey(a), Normal(a));
  }

  lemma ReplaceLeavesOne(records: map<string, Address>, now: Instant, address: string, record: Address)
    requires OneEach(records, now) && address !in records
    ensures var gone := set a | a in records && Replaced(records[a], record.ip, record.owner, now);
            OneEach(ExpireAll(records, gone)[address := record], now)
  {
    var gone := set a | a in records && Replaced(records[a], record.ip, record.owner, now);
    var records' := ExpireAll(records, gone)[address := record];
    forall a, b | LiveIn(records', now, a) && LiveIn(records', now, b) && SameAccount(records'[a], records'[b])
      ensures a == b
    {
      assert a != address ==> LiveIn(records, now, a) && a !in gone;
      assert b != address ==> LiveIn(records, now, b) && b !in gone;
    }
  }

  lemma GenerateKeeps(d: Directory, address: string, ip: string, owner: Option<string>, ttl: int)
    requires DirectoryOk(d) && Normal(address) == address && address !in d.records
    ensures DirectoryOk(Generated(d, address, ip, owner, ttl))
  {
    var t := Generated(d, address, ip, owner, ttl);
    forall a ensures AgreedOn(t, a) {
      assert AgreedOn(d, a);
      KeysInjective(a, address);
      DeadExactly(d, Previous(d, ip, owner), a);
      GenerateAgrees(d, address, ip, owner, ttl, a);
    }
    ReplaceLeavesOne(d.records, d.clock, address, Address(Some(d.clock + ttl), ip, owner));
  }

  /** Which live addresses a call ends, for Mongo and for Postfix: those of the caller's own account, and, when the
      caller is anonymous, every address created from that IP, whoever owns it. */
  lemma GeneratedEndsExactly(d: Directory, address: string, ip: string, owner: Option<string>, ttl: int, a: string)
    requires DirectoryOk(d) && Normal(address) == address && address !in d.records
    requires AddressIsLive(d, a)
    ensures var t := Generated(d, address, ip, owner, ttl);
            var ended := SameAccount(Address(None, ip, owner), d.records[a])
                         || (OwnerKey(owner).None? && d.records[a].ip == ip);
            (AddressIsLive(t, a) <==> !ended) && (LookupOk(t, a) <==> !ended)
  {
    var t := Generated(d, address, ip, owner, ttl);
    GenerateKeeps(d, address, ip, owner, ttl);
    assert AgreedOn(t, a) && Normal(a) == a;
  }

  /** A call writes one new record, for its own caller, and takes the expiry off the records it ends. Nothing else of a
      record changes: mail that comes late is still accounted to whoever made the address. */
  lemma GeneratedWrites(d: Directory, address: string, ip: string, owner: Option<string>, ttl: int, a: string)
    requires DirectoryOk(d) && Normal(address) == address && address !in d.records
    ensures var t := Generated(d, address, ip, owner, ttl);
            && (a in t.records <==> a in d.records || a == address)
            && (a == address ==> t.records[a] == Address(Some(d.clock + ttl), ip, owner))
            && (a in d.records ==>
                  && t.records[a].ip == d.records[a].ip && t.records[a].owner == d.records[a].owner
                  && t.records[a].expires == if AddressIsLive(d, a) && !AddressIsLive(t, a) then None
                                             else d.records[a].expires)
  {}

  /** In plain words: a signed-in call ends the addresses of its account and no others, an anonymous one, or one with an
      empty account, those created from its IP and no others. */
  lemma GeneratedEndsPlainly(d: Directory, address: string, ip: string, owner: Option<string>, ttl: int, a: string)
    requires DirectoryOk(d) && Normal(address) == address && address !in d.records
    requires AddressIsLive(d, a)
    ensures var t := Generated(d, address, ip, owner, ttl);
            var signedIn := owner.Some? && owner.value != "";
            LookupOk(t, a) <==> if signedIn then d.records[a].owner != owner else d.records[a].ip != ip
  {
    GeneratedEndsExactly(d, address, ip, owner, ttl, a);
  }

  /** An anonymous call ends the address that a signed-in caller created from the same IP. */
  lemma AnonymousCallEndsSignedInAddress(first: string, second: string, ip: string, user: string, ttl: int,
                                         now: Instant)
    requires Normal(first) == first && Normal(second) == second && first != second && user != "" && ttl > 0
    ensures var d := Generated(Directory(map[], map[], now), first, ip, Some(user), ttl);
            var t := Generated(d, second, ip, None, ttl);
            LookupOk(d, first) && AddressIsLive(d, first) && !LookupOk(t, first) && !AddressIsLive(t, first)
  {
    var start := Directory(map[], map[], now);
    forall a ensures AgreedOn(start, a) {}
    GenerateKeeps(start, first, ip, Some(user), ttl);
    var d := Generated(start, first, ip, Some(user), ttl);
    GeneratedEndsExactly(d, second, ip, None, ttl, first);
  }

  /** A new address lives for its time to live and no longer, for Mongo and for Postfix, whatever records are purged in
      between. */
  lemma NewAddressLives(d: Directory, address: string, ip: string, owner: Option<string>, ttl: int, later: Instant)
    requires Normal(address) == address && d.clock <= later
    ensures var t := Generated(d, address, ip, owner, ttl).(clock := later);
            && (AddressIsLive(t, address) <==> later < d.clock + ttl)
            && (LookupOk(t, address) <==> later < d.clock + ttl)
            && (forall gone :: AddressIsLive(Purged(t, gone), address) <==> later < d.clock + ttl)
  {
    var t := Generated(d, address, ip, owner, ttl).(clock := later);
    assert t.keys[AddressKey(address)] == d.clock + ttl;
  }

  /** So does every other spelling that mail can come to. */
  lemma NewAddressIsAccepted(d: Directory, address: string, ip: string, owner: Option<string>, ttl: int, later: Instant,
                             to: string)
    requires Normal(address) == address && d.clock <= later && Normal(to) == address
    ensures LookupOk(Generated(d, address, ip, owner, ttl).(clock := later), to) <==> later < d.clock + ttl
  {
    NewAddressLives(d, address, ip, owner, ttl, later);
    KeysInjective(address, to);
    NormalIdempotent(to);
  }

  // ----- Runs -----

  datatype Call =
    | Tick(to: Instant)
    | Purge(address: string)
    | Generate(address: string, ip: string, owner: Option<string>, ttl: int)

  /** A generated address is a token of lower-case hexadecimal digits under the mail domain. */
  predicate Token(s: string) {
    forall i :: 0 <= i < |s| ==> s[i] == '-' || '0' <= s[i] <= '9' || 'a' <= s[i] <= 'z'
  }

  predicate Under(address: string, domain: string) {
    |domain| + 1 < |address| && EndsWith(address, "@" + domain) && Token(address[..|address| - |domain| - 1])
  }

  predicate Possible(d: Directory, call: Call, domain: string) {
    match call
    case Tick(to) => d.clock <= to
    case Purge(_) => true
    case Generate(address, _, _, _) =>
      address !in d.records && Under(address, domain)
  }

  function Act(d: Directory, call: Call): Directory {
    match call
    case Tick(to) => d.(clock := to)
    case Purge(a) => Purged(d, a)
    case Generate(a, ip, owner, ttl) => Generated(d, a, ip, owner, ttl)
  }

  predicate PossibleRun(d: Directory, calls: seq<Call>, domain: string)
    decreases |calls|
  {
    calls == [] || (Possible(d, calls[0], domain) && PossibleRun(Act(d, calls[0]), calls[1..], domain))
  }

  function ActAll(d: Directory, calls: seq<Call>): Directory
    decreases |calls|
  {
    if calls == [] then d else ActAll(Act(d, calls[0]), calls[1..])
  }

  predicate NormalDomain(domain: string) { IsLower(domain) && (domain == "" || !IsSpace(domain[|domain| - 1])) }

  lemma NormalIsClean(a: string)
    ensures IsLower(Normal(a)) && Stripped(Normal(a), IsSpace)
  {
    var s := Strip(a, IsSpace);
    StripIsStripped(a, IsSpace);
    LowerIsLower(s);
    LowerKeepsStripped(s, IsSpace);
  }

  /** Address and domain, position by position. */
  lemma AddressParts(address: string, domain: string)
    requires Under(address, domain)
    ensures var cut := |address| - |domain| - 1;
            && address[cut] == '@'
            && (forall i :: 0 <= i < |domain| ==> address[cut + 1 + i] == domain[i])
            && (forall i :: 0 <= i < cut ==> LowerChar(address[i]) == address[i] && !IsSpace(address[i]))
  {
    var cut := |address| - |domain| - 1;
    var token := address[..cut];
    assert address[cut..] == "@" + domain;
    assert forall i :: 0 <= i < cut ==> address[i] == token[i];
    forall i | 0 <= i < |domain| ensures address[cut + 1 + i] == domain[i] {
      assert address[cut..][1 + i] == domain[i];
    }
  }

  /** Which configured domains make generated addresses their own normal form. */
  lemma DomainDecides(address: string, domain: string)
    requires Under(address, domain)
    ensures Normal(address) == address <==> NormalDomain(domain)
  {
    AddressParts(address, domain);
    var cut := |address| - |domain| - 1;
    if Normal(address) == address {
      NormalIsClean(address);
      forall i | 0 <= i < |domain| ensures LowerChar(domain[i]) == domain[i] {
        assert LowerChar(address[cut + 1 + i]) == address[cut + 1 + i];
      }
    }
    if NormalDomain(domain) {
      forall i | 0 <= i < |address| ensures LowerChar(address[i]) == address[i] {
        if i > cut { assert address[cut + 1 + (i - cut - 1)] == domain[i - cut - 1]; }
      }
      CleanIsNormal(address);
    }
  }

  lemma CleanIsNormal(a: string)
    requires IsLower(a) && Stripped(a, IsSpace)
    ensures Normal(a) == a
  {
    StripIsStripped(a, IsSpace);
    LowerIsLower(a);
  }

  lemma CallKeeps(d: Directory, call: Call, domain: string)
    requires DirectoryOk(d) && NormalDomain(domain) && Possible(d, call, domain)
    ensures DirectoryOk(Act(d, call))
  {
    match call
    case Tick(to) => TickKeeps(d, to);
    case Purge(a) => PurgeKeeps(d, a);
    case Generate(a, ip, owner, ttl) =>
      DomainDecides(a, domain);
      GenerateKeeps(d, a, ip, owner, ttl);
  }

  lemma {:induction false} RunKeeps(d: Directory, calls: seq<Call>, domain: string)
    requires DirectoryOk(d) && NormalDomain(domain) && PossibleRun(d, calls, domain)
    ensures DirectoryOk(ActAll(d, calls))
    decreases |calls|
  {
    if calls != [] {
      CallKeeps(d, calls[0], domain);
      RunKeeps(Act(d, calls[0]), calls[1..], domain);
    }
  }

  /** Postfix accepts a recipient exactly when its normal form is a live address, in every state the API can reach. */
  lemma LookupAnswersLiveness(clock: Instant, calls: seq<Call>, domain: string, to: string)
    requires NormalDomain(domain) && PossibleRun(Directory(map[], map[], clock), calls, domain)
    ensures var d := ActAll(Directory(map[], map[], clock), calls);
            (LookupOk(d, to) <==> AddressIsLive(d, Normal(to))) && OneEach(d.records, d.clock)
  {
    var start := Directory(map[], map[], clock);
    forall a ensures AgreedOn(start, a) {}
    RunKeeps(start, calls, domain);
    var d := ActAll(start, calls);
    assert AgreedOn(d, to);
  }

  /** Never two live addresses of one account, nor two of one IP without an account. */
  lemma OneLiveAddress(clock: Instant, calls: seq<Call>, domain: string, a: string, b: string)
    requires NormalDomain(domain) && PossibleRun(Directory(map[], map[], clock), calls, domain)
    ensures var d := ActAll(Directory(map[], map[], clock), calls);
            AddressIsLive(d, a) && AddressIsLive(d, b) ==>
              && (d.records[a].owner.Some? && d.records[a].owner.value != "" && d.records[b].owner == d.records[a].owner
                  ==> a == b)
              && (d.records[a].owner.None? && d.records[b].owner.None? && d.records[a].ip == d.records[b].ip ==> a == b)
  {
    LookupAnswersLiveness(clock, calls, domain, a);
    var d := ActAll(Directory(map[], map[], clock), calls);
    if AddressIsLive(d, a) && AddressIsLive(d, b) {
      assert LiveIn(d.records, d.clock, a) && LiveIn(d.records, d.clock, b);
    }
  }

  /** With a domain that is not its own normal form the agreement fails at once: the new address is accepted by the
      lookup, but its normal form, under which ingest files the mail, is no live address. */
  lemma OddDomainDisagrees(d: Directory, address: string, ip: string, owner: Option<string>, ttl: int, domain: string)
    requires Under(address, domain)
    requires ttl > 0 && Normal(address) !in d.records
    ensures var t := Generated(d, address, ip, owner, ttl);
            && LookupOk(t, address)
            && (AddressIsLive(t, Normal(address)) <==> NormalDomain(domain))
  {
    DomainDecides(address, domain);
  }

  lemma OneMoreKey(all: set<string>, todo: set<string>, a: string)
    requires todo <= all && a in todo
    ensures KeysOf(all - (todo - {a})) == KeysOf(all - todo) + {AddressKey(a)}
  {
    assert all - (todo - {a}) == (all - todo) + {a};
  }

  // ----- The stores themselves -----

  /** The address collection and the key store, as the API and Postfix's map server see them. */
  class AddressBook {
    var records: map<string, Address>
    var keys: map<string, Instant>

    constructor ()
      ensures records == map[] && keys == map[]
    {
      records := map[];
      keys := map[];
    }

    ghost function At(now: Instant): Directory
      reads this
    {
      Directory(records, keys, now)
    }

    /** The loop over the addresses to replace, one cache delete each. */
    method DeleteKeys(previous: set<string>)
      modifies this`keys
      ensures keys == old(keys) - KeysOf(previous)
    {
      var todo := previous;
      while todo != {}
        invariant todo <= previous
        invariant keys == old(keys) - KeysOf(previous - todo)
        decreases |todo|
      {
        var a :| a in todo;
        OneMoreKey(previous, todo, a);
        keys := keys - {AddressKey(a)};
        todo := todo - {a};
      }
      assert previous - {} == previous;
    }

    /** The find and the update both select the addresses to replace; their keys go first, the new record and its key
        come last. */
    method GenerateRandom(address: string, ip: string, owner: Option<string>, ttl: int, now: Instant)
      modifies this
      ensures At(now) == Generated(old(At(now)), address, ip, owner, ttl)
    {
      var previous := Previous(Directory(records, keys, now), ip, owner);
      DeleteKeys(previous);
      records := ExpireAll(records, previous);
      records := records[address := Address(Some(now + ttl), ip, owner)];
      keys := keys[AddressKey(address) := now + ttl];
    }
  }
}
