/** Linking wallets: which pairs of chain and address are taken to be the same wallet.

    The JSON text an account stores is represented by what it decodes to. Letters are folded as ASCII.
  */
module WalletLink {
  import opened Text

  /** What a stored secret decodes to; older accounts hold a chain id in place of the chain. */
  datatype Secret = Secret(address: Option<string>, chain: Option<string>, chainId: Option<int>)

  /** `secret` is None when nothing, or no JSON, is stored. */
  datatype Account = Account(id: nat, secret: Option<Secret>)

  datatype Request = Request(chain: Option<string>, chainId: Option<int>, address: string)

  datatype Wallet = Wallet(chain: string, address: string)

  datatype Reply = Ok | Fail(status: int)

  // ----- Characters -----

  function LowerChar(c: char): char {
    if 'A' <= c <= 'Z' then (c as int + 32) as char else c
  }

  function Lower(s: string): (r: string)
    ensures |r| == |s| && forall i :: 0 <= i < |s| ==> r[i] == LowerChar(s[i])
  {
    seq(|s|, i requires 0 <= i < |s| => LowerChar(s[i]))
  }

  predicate IsSpace(c: char) {
    c == ' ' || 9 <= c as int <= 13 || 28 <= c as int <= 31
  }

  function Stripped(s: string): string {
    if s == "" then "" else if IsSpace(s[0]) then Stripped(s[1..]) else StrippedRight(s)
  }

  function StrippedRight(s: string): string {
    if s == "" || !IsSpace(s[|s| - 1]) then s else StrippedRight(s[..|s| - 1])
  }

  predicate IsLetter(c: char) {
    'a' <= c <= 'z' || 'A' <= c <= 'Z'
  }

  predicate IsHex(c: char) {
    IsDigit(c) || 'a' <= c <= 'f' || 'A' <= c <= 'F'
  }

  // ----- Chains -----

  function AfterColon(s: string): string {
    if s == "" then "" else if s[0] == ':' then s[1..] else AfterColon(s[1..])
  }

  lemma {:induction false} SplitAtColon(s: string)
    requires ':' in s
    ensures s == BeforeColon(s) + ":" + AfterColon(s)
  {
    if s[0] != ':' {
      SplitAtColon(s[1..]);
    }
  }

  lemma {:induction false} JoinedAtColon(a: string, b: string)
    requires ':' !in a
    ensures BeforeColon(a + ":" + b) == a && AfterColon(a + ":" + b) == b
  {
    if a == "" {
      assert (a + ":" + b)[1..] == b;
    } else {
      JoinedAtColon(a[1..], b);
      assert (a + ":" + b)[1..] == a[1..] + ":" + b;
    }
  }

  /** None stands for the error of a text without a colon. */
  function Canonical(chain: string): Option<string> {
    if ':' !in chain then None else Some(Lower(BeforeColon(chain)) + ":" + AfterColon(chain))
  }

  /** The namespace in lower case, two to 32 of letters, digits and hyphens; then a reference of one to
      64 letters, digits, dots and hyphens. */
  predicate IsChainId(s: string) {
    && ':' in s
    && 2 <= |BeforeColon(s)| <= 32 && (forall c :: c in BeforeColon(s) ==> 'a' <= c <= 'z' || IsDigit(c) || c == '-')
    && 1 <= |AfterColon(s)| <= 64
        && (forall c :: c in AfterColon(s) ==> IsLetter(c) || IsDigit(c) || c == '.' || c == '-')
  }

  /** The chain and its namespace, or None when the request is refused. */
  function ResolvedChain(chain: Option<string>, chainId: Option<int>): Option<string> {
    if chainId.Some? && chainId.value < 1 then None
    else if chain.Some? && chain.value != "" then
      var cleaned := Stripped(chain.value);
      if !IsChainId(cleaned) then None
      else
        var canonical := Lower(BeforeColon(cleaned)) + ":" + AfterColon(cleaned);
        var ns, reference := BeforeColon(canonical), AfterColon(canonical);
        if ns == "eip155" && !AllDigits(reference) then None
        else if chainId.Some? && ns != "eip155" then None
        else if chainId.Some? && reference != Digits(chainId.value) then None
        else Some(canonical)
    else Some("eip155:" + Digits(if chainId.Some? then chainId.value else 1))
  }

  // ----- Addresses -----

  predicate IsEvmAddress(s: string) {
    |s| == 42 && s[..2] == "0x" && forall i :: 2 <= i < 42 ==> IsHex(s[i])
  }

  function ResolvedAddress(address: string, ns: string): Option<string> {
    var cleaned := Stripped(address);
    if cleaned == "" then None
    else if exists i :: 0 <= i < |cleaned| && IsSpace(cleaned[i]) then None
    else if |cleaned| > 256 then None
    else if ns == "eip155" then if IsEvmAddress(cleaned) then Some(Lower(cleaned)) else None
    else Some(cleaned)
  }

  /** The wallet a request asks for, validated. */
  function Requested(req: Request): Option<Wallet> {
    var chain := ResolvedChain(req.chain, req.chainId);
    if chain.None? then None
    else
      var address := ResolvedAddress(req.address, BeforeColon(chain.value));
      if address.None? then None else Some(Wallet(chain.value, address.value))
  }

  // ----- Identity -----

  function Normalized(w: Wallet): Option<Wallet> {
    var chain := Canonical(w.chain);
    if chain.None? then None
    else Some(Wallet(chain.value, if Lower(BeforeColon(w.chain)) == "eip155" then Lower(w.address) else w.address))
  }

  function Decimal(n: int): string {
    if n < 0 then "-" + Digits(-n) else Digits(n)
  }

  /** What an account's secret says, if anything. */
  function Extracted(s: Secret): Option<Wallet> {
    var chain := if s.chain.Some? && s.chain.value != "" then s.chain.value
                 else "eip155:" + Decimal(if s.chainId.Some? && s.chainId.value != 0 then s.chainId.value else 1);
    var canonical := Canonical(chain);
    if canonical.None? || s.address.None? || s.address.value == "" then None
    else Some(Wallet(canonical.value, s.address.value))
  }

  function Identity(a: Account): Option<Wallet> {
    if a.secret.None? then None
    else
      var w := Extracted(a.secret.value);
      if w.None? then None else Normalized(w.value)
  }

  function Stored(w: Wallet): Secret {
    Secret(Some(w.address), Some(w.chain), if BeforeColon(w.chain) == "eip155"
        then Some(Value(AfterColon(w.chain)))
        else None)
  }

  lemma {:induction false} LowerTwice(s: string)
    ensures Lower(Lower(s)) == Lower(s)
  {
    assert forall i :: 0 <= i < |s| ==> Lower(Lower(s))[i] == Lower(s)[i];
  }

  lemma {:induction false} LowerHasNoColon(s: string)
    requires ':' !in s
    ensures ':' !in Lower(s)
  {
    forall i | 0 <= i < |s| ensures Lower(s)[i] != ':' {
      assert s[i] in s;
    }
  }

  lemma {:induction false} CanonicalHasColon(chain: string)
    requires ':' in chain
    ensures Canonical(chain).Some? && ':' in Canonical(chain).value
    ensures BeforeColon(Canonical(chain).value) == Lower(BeforeColon(chain))
    ensures AfterColon(Canonical(chain).value) == AfterColon(chain)
  {
    LowerHasNoColon(BeforeColon(chain));
    JoinedAtColon(Lower(BeforeColon(chain)), AfterColon(chain));
    assert Canonical(chain).value[|BeforeColon(chain)|] == ':';
  }

  /** Putting a chain into canonical form a second time changes nothing. */
  lemma {:induction false} CanonicalIsIdempotent(chain: string)
    requires ':' in chain
    ensures Canonical(Canonical(chain).value) == Canonical(chain)
  {
    CanonicalHasColon(chain);
    LowerTwice(BeforeColon(chain));
  }

  /** Nor does normalising a wallet. */
  lemma {:induction false} NormalizedIsIdempotent(w: Wallet)
    requires Normalized(w).Some?
    ensures Normalized(Normalized(w).value) == Normalized(w)
  {
    CanonicalHasColon(w.chain);
    CanonicalIsIdempotent(w.chain);
    LowerTwice(BeforeColon(w.chain));
    LowerTwice(w.address);
  }

  lemma {:induction false} ResolvedIsCanonical(chain: Option<string>, chainId: Option<int>)
    requires ResolvedChain(chain, chainId).Some?
    ensures var c := ResolvedChain(chain, chainId).value; ':' in c && Canonical(c) == Some(c)
  {
    if chain.Some? && chain.value != "" {
      CanonicalHasColon(Stripped(chain.value));
      CanonicalIsIdempotent(Stripped(chain.value));
    } else {
      var c := ResolvedChain(chain, chainId).value;
      assert c == "eip155" + ":" + c[7..];
      assert c[6] == ':';
      JoinedAtColon("eip155", c[7..]);
      assert Lower("eip155") == "eip155";
    }
  }

  lemma {:induction false} ResolvedIsLower(address: string, ns: string)
    requires ResolvedAddress(address, ns).Some?
    ensures ResolvedAddress(address, ns).value != ""
    ensures ns == "eip155" ==> Lower(ResolvedAddress(address, ns).value) == ResolvedAddress(address, ns).value
  {
    LowerTwice(Stripped(address));
  }

  /** Reading back what a link stored gives the wallet that was asked for, already normalised. */
  lemma {:induction false} StoredIsReadBack(req: Request, id: nat)
    requires Requested(req).Some?
    ensures Identity(Account(id, Some(Stored(Requested(req).value)))) == Requested(req)
    ensures Normalized(Requested(req).value) == Requested(req)
  {
    var w := Requested(req).value;
    ResolvedIsCanonical(req.chain, req.chainId);
    ResolvedIsLower(req.address, BeforeColon(w.chain));
    CanonicalHasColon(w.chain);
    hide ResolvedChain, ResolvedAddress;
  }

  // ----- Linking -----

  predicate Taken(accounts: seq<Account>, w: Option<Wallet>) {
    exists k :: 0 <= k < |accounts| && Identity(accounts[k]).Some? && Identity(accounts[k]) == w
  }

  /** `allowed` is the verdict of the plan limit, which is asked last. */
  function LinkStep(accounts: seq<Account>, req: Request, id: nat, allowed: bool): (seq<Account>, Reply) {
    var w := Requested(req);
    if w.None? then (accounts, Fail(422))
    else if Taken(accounts, Normalized(w.value)) then (accounts, Fail(409))
    else if !allowed then (accounts, Fail(403))
    else (accounts + [Account(id, Some(Stored(w.value)))], Ok)
  }

  function Without(accounts: seq<Account>, id: nat): seq<Account> {
    if accounts == [] then []
    else
      var init, a := Without(accounts[..|accounts| - 1], id), accounts[|accounts| - 1];
      if a.id == id then init else init + [a]
  }

  datatype Event = Link(req: Request, id: nat, allowed: bool) | Delete(id: nat)

  function Step(accounts: seq<Account>, e: Event): seq<Account> {
    match e
    case Link(req, id, allowed) => LinkStep(accounts, req, id, allowed).0
    case Delete(id) => Without(accounts, id)
  }

  function Run(accounts: seq<Account>, events: seq<Event>): seq<Account>
    decreases |events|
  {
    if events == [] then accounts else Run(Step(accounts, events[0]), events[1..])
  }

  /** No wallet is linked twice. */
  ghost predicate Distinct(accounts: seq<Account>) {
    forall i, j :: 0 <= i < j < |accounts| && Identity(accounts[i]).Some?
        ==> Identity(accounts[i]) != Identity(accounts[j])
  }

  lemma {:induction false} LinkKeepsDistinct(accounts: seq<Account>, req: Request, id: nat, allowed: bool)
    requires Distinct(accounts)
    ensures Distinct(LinkStep(accounts, req, id, allowed).0)
  {
    hide Identity, Requested, Normalized, Stored;
    if LinkStep(accounts, req, id, allowed).1 == Ok {
      StoredIsReadBack(req, id);
    }
  }

  lemma {:induction false} WithoutIs(accounts: seq<Account>, id: nat)
    ensures forall a :: a in Without(accounts, id) <==> a in accounts && a.id != id
    decreases |accounts|
  {
    if accounts == [] {
    } else {
      var n := |accounts| - 1;
      WithoutIs(accounts[..n], id);
      assert accounts == accounts[..n] + [accounts[n]];
    }
  }

  lemma {:induction false} WithoutKeepsDistinct(accounts: seq<Account>, id: nat)
    requires Distinct(accounts)
    ensures Distinct(Without(accounts, id))
    decreases |accounts|
  {
    hide Identity;
    if accounts == [] {
    } else {
      var n := |accounts| - 1;
      WithoutKeepsDistinct(accounts[..n], id);
      WithoutIs(accounts[..n], id);
      var r := Without(accounts[..n], id);
      forall i | 0 <= i < |r| && Identity(r[i]).Some? ensures Identity(r[i]) != Identity(accounts[n]) {
        assert r[i] in accounts[..n];
      }
    }
  }

  /** Over any run of links and deletions, no two of a user's accounts are the same wallet. */
  lemma {:induction false} NoWalletIsLinkedTwice(accounts: seq<Account>, events: seq<Event>)
    requires Distinct(accounts)
    ensures Distinct(Run(accounts, events))
    decreases |events|
  {
    hide Distinct, LinkStep, Without;
    if events == [] {
    } else {
      match events[0] {
        case Link(req, id, allowed) => LinkKeepsDistinct(accounts, req, id, allowed);
        case Delete(id) => WithoutKeepsDistinct(accounts, id);
      }
      NoWalletIsLinkedTwice(Step(accounts, events[0]), events[1..]);
    }
  }

  /** A valid request is refused as a duplicate exactly when an account holds the wallet it asks for. */
  lemma {:induction false} RefusedIffHeld(accounts: seq<Account>, req: Request, id: nat, allowed: bool)
    requires Requested(req).Some?
    ensures LinkStep(accounts, req, id, allowed).1 == Fail(409) <==>
              exists k :: 0 <= k < |accounts| && Identity(accounts[k]) == Requested(req)
  {
    StoredIsReadBack(req, id);
    hide Identity, Requested, Normalized, Stored;
  }

  ghost predicate NeverDeletes(events: seq<Event>, id: nat) {
    forall k :: 0 <= k < |events| ==> events[k] != Delete(id)
  }

  lemma {:induction false} StepKeepsOthers(accounts: seq<Account>, event: Event, a: Account)
    requires a in accounts && event != Delete(a.id)
    ensures a in Step(accounts, event)
  {
    hide Requested, Taken, Normalized, Stored;
    if event.Delete? {
      WithoutIs(accounts, event.id);
    }
  }

  lemma {:induction false} RunKeepsAccount(accounts: seq<Account>, events: seq<Event>, a: Account)
    requires a in accounts && NeverDeletes(events, a.id)
    ensures a in Run(accounts, events)
    decreases |events|
  {
    hide Step;
    if events == [] {
    } else {
      StepKeepsOthers(accounts, events[0], a);
      RunKeepsAccount(Step(accounts, events[0]), events[1..], a);
    }
  }

  /** Once linked, a wallet is refused after every run that does not delete its account. */
  lemma {:induction false} SecondLinkIsRefused(
      accounts: seq<Account>, first: Request, events: seq<Event>, second: Request, id: nat, id': nat, allowed: bool)
    requires Requested(second).Some? && Requested(second) == Requested(first) && NeverDeletes(events, id)
    requires LinkStep(accounts, first, id, true).1 == Ok
    ensures var later := Run(LinkStep(accounts, first, id, true).0, events);
            LinkStep(later, second, id', allowed) == (later, Fail(409))
  {
    StoredIsReadBack(first, id);
    var linked := LinkStep(accounts, first, id, true).0;
    var a := Account(id, Some(Stored(Requested(first).value)));
    assert linked[|accounts|] == a;
    hide Identity, Requested, Normalized, Stored, NeverDeletes;
    RunKeepsAccount(linked, events, a);
    RefusedIffHeld(Run(linked, events), second, id', allowed);
  }

  /** The same account on one EVM chain in upper and lower case is one wallet. */
  lemma {:induction false} CaseIsIgnored(chain: Option<string>, chainId: Option<int>, a: string, b: string)
    requires Stripped(a) == a && Stripped(b) == b && IsEvmAddress(a) && IsEvmAddress(b) && Lower(a) == Lower(b)
    requires ResolvedChain(chain, chainId).Some? && BeforeColon(ResolvedChain(chain, chainId).value) == "eip155"
    ensures Requested(Request(chain, chainId, a)) == Requested(Request(chain, chainId, b))
    ensures Requested(Request(chain, chainId, a)).Some?
  {
    HexIsNoSpace(a);
    HexIsNoSpace(b);
    hide ResolvedChain, Stripped;
  }

  lemma {:induction false} HexIsNoSpace(a: string)
    requires IsEvmAddress(a)
    ensures forall i :: 0 <= i < |a| ==> !IsSpace(a[i])
  {
    forall i | 0 <= i < |a| ensures !IsSpace(a[i]) {
      if i < 2 {
        assert a[i] == a[..2][i];
      }
    }
  }

  // ----- Chain numbers -----

  predicate IsEvm(w: Wallet) {
    ':' in w.chain && BeforeColon(w.chain) == "eip155"
  }

  function ChainNumber(w: Wallet): int {
    Value(AfterColon(w.chain))
  }

  /** The reference is the chain number as it is usually written. */
  predicate PlainReference(w: Wallet) {
    ChainNumber(w) >= 0 && AfterColon(w.chain) == Digits(ChainNumber(w))
  }

  lemma {:induction false} ChainIsReference(a: Wallet, b: Wallet)
    requires IsEvm(a) && IsEvm(b)
    ensures a.chain == b.chain <==> AfterColon(a.chain) == AfterColon(b.chain)
  {
    SplitAtColon(a.chain);
    SplitAtColon(b.chain);
  }

  /** References are compared as text. After one wallet is linked, a request for the same address on the
      same chain number is refused exactly when it writes the reference the same way, or that other
      writing of it had been linked before. */
  lemma {:induction false} SameNumberRefusedIff(
      accounts: seq<Account>, first: Request, second: Request, id: nat, id': nat, allowed: bool)
    requires Requested(first).Some? && Requested(second).Some?
    requires var a, b := Requested(first).value, Requested(second).value;
             IsEvm(a) && IsEvm(b) && ChainNumber(a) == ChainNumber(b) && a.address == b.address
    requires LinkStep(accounts, first, id, true).1 == Ok
    ensures LinkStep(LinkStep(accounts, first, id, true).0, second, id', allowed).1 == Fail(409) <==>
              || AfterColon(Requested(first).value.chain) == AfterColon(Requested(second).value.chain)
              || Taken(accounts, Requested(second))
  {
    var linked := LinkStep(accounts, first, id, true).0;
    ChainIsReference(Requested(first).value, Requested(second).value);
    assert Requested(first) == Requested(second) <==>
        Requested(first).value.chain == Requested(second).value.chain;
    hide *;
    LinkedAppends(accounts, first, id);
    RefusedIffHeld(linked, second, id', allowed);
    HeldAfter(accounts, linked[|accounts|], Requested(second));
  }

  lemma {:induction false} LinkedAppends(accounts: seq<Account>, req: Request, id: nat)
    requires Requested(req).Some? && LinkStep(accounts, req, id, true).1 == Ok
    ensures var linked := LinkStep(accounts, req, id, true).0;
            && |linked| == |accounts| + 1 && linked == accounts + [linked[|accounts|]]
            && Identity(linked[|accounts|]) == Requested(req)
  {
    hide Identity, Requested, Normalized, Stored, Taken;
    StoredIsReadBack(req, id);
  }

  lemma {:induction false} HeldAfter(accounts: seq<Account>, a: Account, w: Option<Wallet>)
    requires w.Some?
    ensures (exists k :: 0 <= k < |accounts + [a]| && Identity((accounts + [a])[k]) == w) <==>
              Identity(a) == w || Taken(accounts, w)
  {
    hide Identity;
    var more := accounts + [a];
    assert more[|accounts|] == a;
    if Taken(accounts, w) {
      var k :| 0 <= k < |accounts| && Identity(accounts[k]).Some? && Identity(accounts[k]) == w;
      assert more[k] == accounts[k];
    }
    if k :| 0 <= k < |more| && Identity(more[k]) == w {
      assert k < |accounts| ==> more[k] == accounts[k];
    }
  }

  /** Every EVM wallet is stored under a plain reference. */
  ghost predicate AllPlain(accounts: seq<Account>) {
    forall k :: 0 <= k < |accounts| && Identity(accounts[k]).Some? && IsEvm(Identity(accounts[k]).value) ==>
      PlainReference(Identity(accounts[k]).value)
  }

  predicate PlainRequest(event: Event) {
    event.Link? && Requested(event.req).Some? && IsEvm(Requested(event.req).value) ==>
      PlainReference(Requested(event.req).value)
  }

  lemma {:induction false} StepKeepsPlain(accounts: seq<Account>, event: Event)
    requires AllPlain(accounts) && PlainRequest(event)
    ensures AllPlain(Step(accounts, event))
  {
    hide Identity, Requested, Normalized, Stored, IsEvm, PlainReference;
    match event {
      case Link(req, id, allowed) =>
        if Requested(req).Some? {
          StoredIsReadBack(req, id);
        }
      case Delete(id) =>
        WithoutIs(accounts, id);
        var r := Without(accounts, id);
        forall k | 0 <= k < |r| && Identity(r[k]).Some? && IsEvm(Identity(r[k]).value)
          ensures PlainReference(Identity(r[k]).value)
        {
          assert r[k] in accounts;
        }
    }
  }

  lemma {:induction false} RunKeepsPlain(accounts: seq<Account>, events: seq<Event>)
    requires AllPlain(accounts) && forall k :: 0 <= k < |events| ==> PlainRequest(events[k])
    ensures AllPlain(Run(accounts, events))
    decreases |events|
  {
    hide AllPlain, PlainRequest, Step;
    if events == [] {
    } else {
      StepKeepsPlain(accounts, events[0]);
      RunKeepsPlain(Step(accounts, events[0]), events[1..]);
    }
  }

  /** As long as references are plain, over any run no two EVM accounts of a user have the same chain
      number and address. */
  lemma {:induction false} OneAccountPerChainNumber(accounts: seq<Account>, events: seq<Event>, i: nat, j: nat)
    requires Distinct(accounts) && AllPlain(accounts) && forall k :: 0 <= k < |events| ==> PlainRequest(events[k])
    requires i < j < |Run(accounts, events)|
    requires Identity(Run(accounts, events)[i]).Some? && IsEvm(Identity(Run(accounts, events)[i]).value)
    requires Identity(Run(accounts, events)[j]).Some? && IsEvm(Identity(Run(accounts, events)[j]).value)
    ensures var a, b := Identity(Run(accounts, events)[i]).value, Identity(Run(accounts, events)[j]).value;
            ChainNumber(a) != ChainNumber(b) || a.address != b.address
  {
    RunKeepsPlain(accounts, events);
    NoWalletIsLinkedTwice(accounts, events);
    var a, b := Identity(Run(accounts, events)[i]).value, Identity(Run(accounts, events)[j]).value;
    ChainIsReference(a, b);
    hide Identity, Run, IsEvm, AfterColon;
  }

  /** A request that gives the chain number, or no chain at all, has a plain reference. */
  lemma {:induction false} ChainIdIsPlain(req: Request)
    requires Requested(req).Some? && (req.chainId.Some? || req.chain.None? || req.chain.value == "")
    ensures IsEvm(Requested(req).value) && PlainReference(Requested(req).value)
  {
    var c := Requested(req).value.chain;
    var n := if req.chainId.Some? then req.chainId.value else 1;
    ValueOfDigits(n);
    ResolvedIsCanonical(req.chain, req.chainId);
    hide ResolvedAddress, Digits, Value;
    if req.chain.Some? && req.chain.value != "" {
      CanonicalHasColon(Stripped(req.chain.value));
    } else {
      assert c == "eip155" + ":" + Digits(n);
      JoinedAtColon("eip155", Digits(n));
    }
  }

  /** The reference of an EVM chain is compared as text: with a leading zero the same chain number
      passes as another chain, so one wallet can be linked twice. */
  lemma {:induction false} LeadingZeroSlipsThrough(address: string)
    requires IsEvmAddress(address) && Stripped(address) == address
    ensures Value("1") == Value("01")
    ensures var one, zeroOne := Request(Some("eip155:1"), None, address), Request(Some("eip155:01"), None, address);
            var (linked, reply) := LinkStep([], one, 0, true);
            reply == Ok && LinkStep(linked, zeroOne, 1, true).1 == Ok
  {
    ZeroIsNothing();
    var one, zeroOne := Request(Some("eip155:1"), None, address), Request(Some("eip155:01"), None, address);
    assert "eip155:" + "1" == "eip155:1" && "eip155:" + "01" == "eip155:01";
    assert AllDigits("1") && AllDigits("01");
    hide *;
    OnEvmChain("1", address);
    OnEvmChain("01", address);
    DifferentWalletsAreLinked(one, zeroOne);
  }

  lemma {:induction false} ZeroIsNothing()
    ensures Value("1") == Value("01")
  {
    assert Value("01") == 10 * Value("0") + 1 && "01"[..1] == "0" && "0"[..0] == "" && "1"[..0] == "";
  }

  lemma {:induction false} DifferentWalletsAreLinked(one: Request, two: Request)
    requires Requested(one).Some? && Requested(two).Some? && Requested(one) != Requested(two)
    ensures var (linked, reply) := LinkStep([], one, 0, true);
            reply == Ok && LinkStep(linked, two, 1, true).1 == Ok
  {
    StoredIsReadBack(one, 0);
    StoredIsReadBack(two, 1);
    hide Requested, Normalized, Identity, Stored;
  }

  lemma {:induction false} OnEvmChain(reference: string, address: string)
    requires AllDigits(reference) && 1 <= |reference| <= 64 && IsEvmAddress(address) && Stripped(address) == address
    ensures Requested(Request(Some("eip155:" + reference), None, address))
        == Some(Wallet("eip155:" + reference, Lower(address)))
  {
    EvmChain(reference);
    HexIsNoSpace(address);
    assert "eip155:" + reference == "eip155" + ":" + reference;
    JoinedAtColon("eip155", reference);
    hide ResolvedChain, BeforeColon, Stripped;
  }

  lemma {:induction false} EvmChain(reference: string)
    requires AllDigits(reference) && 1 <= |reference| <= 64
    ensures ResolvedChain(Some("eip155:" + reference), None) == Some("eip155:" + reference)
  {
    var s := "eip155:" + reference;
    assert s == "eip155" + ":" + reference;
    JoinedAtColon("eip155", reference);
    assert s[6] == ':';
    assert Lower("eip155") == "eip155";
    assert !IsSpace(s[0]) && !IsSpace(s[|s| - 1]) by {
      assert s[|s| - 1] == reference[|reference| - 1];
    }
    assert Stripped(s) == s;
    forall c | c in BeforeColon(s) ensures 'a' <= c <= 'z' || IsDigit(c) || c == '-' {
      assert c in "eip155";
    }
  }

  // ----- The endpoint -----

  class Wallets {
    var accounts: seq<Account>

    constructor (existing: seq<Account>)
      ensures accounts == existing
    {
      accounts := existing;
    }

    method Link(req: Request, id: nat, allowed: bool) returns (reply: Reply)
      modifies this
      ensures (accounts, reply) == LinkStep(old(accounts), req, id, allowed)
    {
      hide Requested, Normalized, Extracted, Stored;
      var w := Requested(req);
      if w.None? {
        return Fail(422);
      }
      var incoming := Normalized(w.value);
      for i := 0 to |accounts|
        invariant forall k :: 0 <= k < i ==> Identity(accounts[k]).None? || Identity(accounts[k]) != incoming
      {
        if accounts[i].secret.None? {
          continue;
        }
        var stored := Extracted(accounts[i].secret.value);
        if stored.None? {
          continue;
        }
        var known := Normalized(stored.value);
        if known.Some? && known == incoming {
          return Fail(409);
        }
      }
      if !allowed {
        return Fail(403);
      }
      accounts := accounts + [Account(id, Some(Stored(w.value)))];
      reply := Ok;
    }
  }
}
