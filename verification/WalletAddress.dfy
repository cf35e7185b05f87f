/** What a link keeps of a request, told letter by letter, and which stored accounts stand in its way. */
module WalletAddress {
  import opened Text
  import opened WalletLink

  // ----- Texts -----

  predicate Blank(c: char) {
    c as int in {9, 10, 11, 12, 13, 28, 29, 30, 31, 32}
  }

  /** r is what is left of s without the blanks around it. */
  ghost predicate IsCore(s: string, r: string) {
    exists i, j ::
      && 0 <= i <= j <= |s| && r == s[i..j]
      && (forall k :: 0 <= k < i ==> Blank(s[k])) && (forall k :: j <= k < |s| ==> Blank(s[k]))
      && (r != "" ==> !Blank(r[0]) && !Blank(r[|r| - 1]))
  }

  lemma {:induction false} StrippedRightIs(s: string) returns (j: nat)
    ensures j <= |s| && StrippedRight(s) == s[..j] && forall k :: j <= k < |s| ==> Blank(s[k])
    ensures j > 0 ==> !Blank(s[j - 1])
  {
    if s == "" || !IsSpace(s[|s| - 1]) {
      j := |s|;
    } else {
      j := StrippedRightIs(s[..|s| - 1]);
    }
  }

  lemma {:induction false} StrippedSpan(s: string) returns (i: nat, j: nat)
    ensures i <= j <= |s| && Stripped(s) == s[i..j]
    ensures (forall k :: 0 <= k < i ==> Blank(s[k])) && (forall k :: j <= k < |s| ==> Blank(s[k]))
    ensures i < j ==> !Blank(s[i]) && !Blank(s[j - 1])
  {
    hide StrippedRight;
    if s == "" {
      i, j := 0, 0;
    } else if IsSpace(s[0]) {
      var a, b := StrippedSpan(s[1..]);
      i, j := a + 1, b + 1;
      assert s[1..][a..b] == s[i..j];
      assert forall k :: 0 < k < i ==> s[k] == s[1..][k - 1];
      assert forall k :: j <= k < |s| ==> s[k] == s[1..][k - 1];
    } else {
      i := 0;
      j := StrippedRightIs(s);
      assert s[..j] == s[0..j];
    }
  }

  lemma {:induction false} StrippedIsCore(s: string)
    ensures IsCore(s, Stripped(s))
  {
    hide Stripped;
    var i, j := StrippedSpan(s);
    assert Stripped(s) == s[i..j];
  }

  lemma {:induction false} CoreSpan(s: string, r: string) returns (i: nat, j: nat)
    requires IsCore(s, r)
    ensures i <= j <= |s| && r == s[i..j]
    ensures (forall k :: 0 <= k < i ==> Blank(s[k])) && (forall k :: j <= k < |s| ==> Blank(s[k]))
    ensures i < j ==> !Blank(s[i]) && !Blank(s[j - 1])
  {
    hide Blank;
    i, j :| 0 <= i <= j <= |s| && r == s[i..j]
            && (forall k :: 0 <= k < i ==> Blank(s[k])) && (forall k :: j <= k < |s| ==> Blank(s[k]))
            && (r != "" ==> !Blank(r[0]) && !Blank(r[|r| - 1]));
  }

  lemma {:induction false} CoreIsOne(s: string, r: string, q: string)
    requires IsCore(s, r) && IsCore(s, q)
    ensures r == q
  {
    hide *;
    var i, j := CoreSpan(s, r);
    var a, b := CoreSpan(s, q);
    if i < j {
      InsideSpan(s, i, j, a, b);
    }
    if a < b {
      InsideSpan(s, a, b, i, j);
    }
  }

  lemma {:induction false} InsideSpan(s: string, i: nat, j: nat, a: nat, b: nat)
    requires i < j <= |s| && a <= b <= |s| && !Blank(s[i]) && !Blank(s[j - 1])
    requires (forall k :: 0 <= k < a ==> Blank(s[k])) && (forall k :: b <= k < |s| ==> Blank(s[k]))
    ensures a <= i && j <= b
  {
    hide Blank;
  }

  lemma {:induction false} CoreIs(s: string, r: string)
    ensures IsCore(s, r) <==> r == Stripped(s)
  {
    hide *;
    StrippedIsCore(s);
    if IsCore(s, r) {
      CoreIsOne(s, r, Stripped(s));
    }
  }

  /** r is s with the capital letters A to Z turned into small ones. */
  predicate IsLowerOf(s: string, r: string) {
    && |r| == |s|
    && forall i :: 0 <= i < |s| ==> r[i] as int == s[i] as int + if 'A' <= s[i] <= 'Z' then 32 else 0
  }

  lemma {:induction false} LowerIs(s: string, r: string)
    ensures IsLowerOf(s, r) <==> r == Lower(s)
  {
    if IsLowerOf(s, r) {
      assert forall i :: 0 <= i < |s| ==> r[i] == Lower(s)[i];
    }
  }

  lemma {:induction false} SplitIs(s: string, a: string, b: string)
    ensures ':' !in a && s == a + ":" + b <==> ':' in s && a == BeforeColon(s) && b == AfterColon(s)
  {
    if ':' !in a && s == a + ":" + b {
      assert s[|a|] == ':';
      JoinedAtColon(a, b);
    }
    if ':' in s {
      SplitAtColon(s);
    }
  }

  // ----- What a request asks for -----

  predicate NamespaceText(c: char) {
    'a' <= c <= 'z' || '0' <= c <= '9' || c == '-'
  }

  predicate ReferenceText(c: char) {
    'a' <= c <= 'z' || 'A' <= c <= 'Z' || '0' <= c <= '9' || c == '.' || c == '-'
  }

  /** The chain that is asked for: the one that is named, or an EVM chain by its number, 1 without one. A
      number that is given has to be positive and to fit the name. */
  ghost predicate AsksForChain(req: Request, ns: string, reference: string) {
    && (req.chainId.Some? ==> req.chainId.value >= 1 && ns == "eip155" && reference == Digits(req.chainId.value))
    && (if req.chain.Some? && req.chain.value != ""
        then && IsCore(req.chain.value, ns + ":" + reference)
             && 2 <= |ns| <= 32 && (forall i :: 0 <= i < |ns| ==> NamespaceText(ns[i]))
             && 1 <= |reference| <= 64 && (forall i :: 0 <= i < |reference| ==> ReferenceText(reference[i]))
             && (ns == "eip155" ==> forall i :: 0 <= i < |reference| ==> '0' <= reference[i] <= '9')
        else ns == "eip155" && (req.chainId.None? ==> reference == "1"))
  }

  predicate HexText(c: char) {
    '0' <= c <= '9' || 'a' <= c <= 'f' || 'A' <= c <= 'F'
  }

  /** The address that is kept: the text without the blanks around it, in small letters on EVM chains and
      letter for letter on all others. */
  ghost predicate AsksForAddress(req: Request, ns: string, address: string) {
    exists r ::
      && IsCore(req.address, r) && 1 <= |r| <= 256 && (forall i :: 0 <= i < |r| ==> !Blank(r[i]))
      && (if ns == "eip155"
          then |r| == 42 && r[0] == '0' && r[1] == 'x' && (forall i :: 2 <= i < 42 ==> HexText(r[i]))
               && IsLowerOf(r, address)
          else address == r)
  }

  lemma {:induction false} AddressIs(req: Request, ns: string, address: string)
    ensures AsksForAddress(req, ns, address) <==> ResolvedAddress(req.address, ns) == Some(address)
  {
    var r := Stripped(req.address);
    CoreIs(req.address, r);
    LowerIs(r, address);
    hide IsCore, Stripped, IsLowerOf, Lower;
    if AsksForAddress(req, ns, address) {
      var q :|
        && IsCore(req.address, q) && 1 <= |q| <= 256 && (forall i :: 0 <= i < |q| ==> !Blank(q[i]))
        && (if ns == "eip155"
            then |q| == 42 && q[0] == '0' && q[1] == 'x' && (forall i :: 2 <= i < 42 ==> HexText(q[i]))
                 && IsLowerOf(q, address)
            else address == q);
      CoreIs(req.address, q);
      EvmAddressIs(q);
    } else if ResolvedAddress(req.address, ns) == Some(address) {
      EvmAddressIs(r);
    }
  }

  lemma {:induction false} EvmAddressIs(r: string)
    ensures IsEvmAddress(r) <==>
              |r| == 42 && r[0] == '0' && r[1] == 'x' && forall i :: 2 <= i < 42 ==> HexText(r[i])
  {
    if |r| == 42 {
      assert r[..2] == [r[0], r[1]];
      assert "0x" == ['0', 'x'];
    }
  }

  lemma {:induction false} NamedChainIs(s: string, ns: string, reference: string)
    ensures && IsChainId(s) && ns == BeforeColon(s) && reference == AfterColon(s)
            <==> && s == ns + ":" + reference
                 && 2 <= |ns| <= 32 && (forall i :: 0 <= i < |ns| ==> NamespaceText(ns[i]))
                 && 1 <= |reference| <= 64 && (forall i :: 0 <= i < |reference| ==> ReferenceText(reference[i]))
  {
    SplitIs(s, ns, reference);
    NamespaceChars(ns);
    ReferenceChars(reference);
    hide BeforeColon, AfterColon, NamespaceText, ReferenceText;
  }

  lemma {:induction false} NamespaceChars(ns: string)
    ensures (forall c :: c in ns ==> 'a' <= c <= 'z' || IsDigit(c) || c == '-') <==>
              forall i :: 0 <= i < |ns| ==> NamespaceText(ns[i])
    ensures (forall i :: 0 <= i < |ns| ==> NamespaceText(ns[i])) ==> ':' !in ns
  {
    if forall c :: c in ns ==> 'a' <= c <= 'z' || IsDigit(c) || c == '-' {
      forall i | 0 <= i < |ns| ensures NamespaceText(ns[i]) {
        assert ns[i] in ns;
      }
    }
  }

  lemma {:induction false} ReferenceChars(reference: string)
    ensures (forall c :: c in reference ==> IsLetter(c) || IsDigit(c) || c == '.' || c == '-') <==>
              forall i :: 0 <= i < |reference| ==> ReferenceText(reference[i])
  {
    if forall c :: c in reference ==> IsLetter(c) || IsDigit(c) || c == '.' || c == '-' {
      forall i | 0 <= i < |reference| ensures ReferenceText(reference[i]) {
        assert reference[i] in reference;
      }
    }
  }

  lemma {:induction false} SmallLettersStay(ns: string)
    requires forall i :: 0 <= i < |ns| ==> NamespaceText(ns[i])
    ensures Lower(ns) == ns
  {
    assert forall i :: 0 <= i < |ns| ==> Lower(ns)[i] == ns[i];
  }

  lemma {:induction false} NamedIs(req: Request, ns: string, reference: string)
    requires req.chain.Some? && req.chain.value != ""
    ensures AsksForChain(req, ns, reference) <==>
              ':' !in ns && ResolvedChain(req.chain, req.chainId) == Some(ns + ":" + reference)
  {
    var s := Stripped(req.chain.value);
    CoreIs(req.chain.value, ns + ":" + reference);
    NamedChainIs(s, ns, reference);
    if IsChainId(s) {
      var n, f := BeforeColon(s), AfterColon(s);
      NamedChainIs(s, n, f);
      SmallLettersStay(n);
      SplitIs(s, n, f);
      SplitIs(s, ns, reference);
      hide IsCore, Stripped, BeforeColon, AfterColon, Lower, Digits, IsChainId, NamespaceText, ReferenceText;
    }
  }

  lemma {:induction false} NumberedIs(req: Request, ns: string, reference: string)
    requires req.chain.None? || req.chain.value == ""
    ensures AsksForChain(req, ns, reference) <==>
              ':' !in ns && ResolvedChain(req.chain, req.chainId) == Some(ns + ":" + reference)
  {
    assert Digits(1) == "1";
    hide Digits;
    var c := ResolvedChain(req.chain, req.chainId);
    if c.Some? {
      var f := Digits(if req.chainId.Some? then req.chainId.value else 1);
      assert c.value == "eip155" + ":" + f;
      SplitIs(c.value, "eip155", f);
      SplitIs(c.value, ns, reference);
    }
  }

  lemma {:induction false} ChainIs(req: Request, ns: string, reference: string)
    ensures AsksForChain(req, ns, reference) <==>
              ':' !in ns && ResolvedChain(req.chain, req.chainId) == Some(ns + ":" + reference)
  {
    if req.chain.Some? && req.chain.value != "" {
      NamedIs(req, ns, reference);
    } else {
      NumberedIs(req, ns, reference);
    }
  }

  /** The request is valid and asks for this wallet. */
  ghost predicate Asks(req: Request, ns: string, reference: string, address: string) {
    AsksForChain(req, ns, reference) && AsksForAddress(req, ns, address)
  }

  lemma {:induction false} AsksIs(req: Request, ns: string, reference: string, address: string)
    ensures Asks(req, ns, reference, address) <==>
              ':' !in ns && Requested(req) == Some(Wallet(ns + ":" + reference, address))
  {
    ChainIs(req, ns, reference);
    AddressIs(req, ns, address);
    SplitIs(ns + ":" + reference, ns, reference);
    hide ResolvedChain, ResolvedAddress, AsksForChain, AsksForAddress, BeforeColon, AfterColon;
  }

  // ----- What an account holds -----

  /** The chain text of a stored secret; older ones hold a chain number in its place. */
  function StoredChain(s: Secret): string {
    if s.chain.Some? && s.chain.value != "" then s.chain.value
    else "eip155:" + Decimal(if s.chainId.Some? && s.chainId.value != 0 then s.chainId.value else 1)
  }

  /** The account is for this wallet: namespaces are compared in small letters, references as they are,
      and addresses in small letters on EVM chains only. */
  ghost predicate Holds(a: Account, ns: string, reference: string, address: string) {
    && a.secret.Some? && a.secret.value.address.Some? && a.secret.value.address.value != ""
    && exists n ::
         && ':' !in n && StoredChain(a.secret.value) == n + ":" + reference && IsLowerOf(n, ns)
         && (if ns == "eip155" then IsLowerOf(a.secret.value.address.value, address)
             else a.secret.value.address.value == address)
  }

  ghost predicate Held(accounts: seq<Account>, ns: string, reference: string, address: string) {
    exists k :: 0 <= k < |accounts| && Holds(accounts[k], ns, reference, address)
  }

  lemma {:induction false} HoldsIs(a: Account, ns: string, reference: string, address: string)
    requires ':' !in ns
    ensures Holds(a, ns, reference, address) <==> Identity(a) == Some(Wallet(ns + ":" + reference, address))
  {
    if a.secret.Some? && a.secret.value.address.Some? && a.secret.value.address.value != "" {
      var s, kept := StoredChain(a.secret.value), a.secret.value.address.value;
      IdentityIs(a);
      LowerIs(kept, address);
      hide Identity, IsLowerOf, Lower, StoredChain, Decimal;
      if Holds(a, ns, reference, address) {
        var n :|
          && ':' !in n && StoredChain(a.secret.value) == n + ":" + reference && IsLowerOf(n, ns)
          && (if ns == "eip155" then IsLowerOf(kept, address) else kept == address);
        SplitIs(s, n, reference);
        LowerIs(n, ns);
      }
      if Identity(a) == Some(Wallet(ns + ":" + reference, address)) {
        var n := BeforeColon(s);
        SplitIs(s, n, AfterColon(s));
        LowerIs(n, Lower(n));
        LowerKeepsColons(n);
        SplitIs(ns + ":" + reference, ns, reference);
        SplitIs(Lower(n) + ":" + AfterColon(s), Lower(n), AfterColon(s));
        LowerIs(n, ns);
      }
    }
  }

  lemma {:induction false} LowerKeepsColons(n: string)
    requires ':' !in n
    ensures ':' !in Lower(n)
  {
    LowerHasNoColon(n);
  }

  lemma {:induction false} IdentityIs(a: Account)
    requires a.secret.Some? && a.secret.value.address.Some? && a.secret.value.address.value != ""
    ensures var s, kept := StoredChain(a.secret.value), a.secret.value.address.value;
            Identity(a) == if ':' !in s then None
                           else Some(Wallet(Lower(BeforeColon(s)) + ":" + AfterColon(s),
                                            if Lower(BeforeColon(s)) == "eip155" then Lower(kept) else kept))
  {
    var s := StoredChain(a.secret.value);
    if ':' in s {
      CanonicalHasColon(s);
      CanonicalIsIdempotent(s);
      LowerTwice(BeforeColon(s));
    }
    hide BeforeColon, AfterColon, Lower, Decimal;
  }

  // ----- Linking -----

  /** A link succeeds exactly when the request is valid, no account holds the wallet, and the plan allows
      one more; it then keeps exactly what was asked for, and otherwise changes nothing. An invalid request
      is refused before a duplicate, and that before the plan is asked. */
  lemma {:induction false} LinkKeeps(
      accounts: seq<Account>, req: Request, id: nat, allowed: bool, ns: string, reference: string, address: string)
    requires Asks(req, ns, reference, address)
    ensures var (accounts', reply) := LinkStep(accounts, req, id, allowed);
            && reply == (if Held(accounts, ns, reference, address) then Fail(409) else if allowed then Ok
                else Fail(403))
            && (reply != Ok ==> accounts' == accounts)
            && (reply == Ok ==>
                  accounts' == accounts + [Account(id, Some(Secret(Some(address), Some(ns + ":" + reference),
                                 if ns == "eip155" then Some(Value(reference)) else None)))])
  {
    hide *;
    AsksIs(req, ns, reference, address);
    StoredIsReadBack(req, id);
    TakenIsHeld(accounts, ns, reference, address);
    StepIs(accounts, req, id, allowed, ns, reference, address);
  }

  lemma {:induction false} TakenIsHeld(accounts: seq<Account>, ns: string, reference: string, address: string)
    requires ':' !in ns
    ensures Taken(accounts, Some(Wallet(ns + ":" + reference, address))) <==> Held(accounts, ns, reference, address)
  {
    hide Holds, Identity;
    forall k | 0 <= k < |accounts|
      ensures Holds(accounts[k], ns, reference, address)
              <==> Identity(accounts[k]) == Some(Wallet(ns + ":" + reference, address))
    {
      HoldsIs(accounts[k], ns, reference, address);
    }
  }

  lemma {:induction false} StepIs(
      accounts: seq<Account>, req: Request, id: nat, allowed: bool, ns: string, reference: string, address: string)
    requires ':' !in ns && Requested(req) == Some(Wallet(ns + ":" + reference, address))
    requires Normalized(Requested(req).value) == Requested(req)
    ensures LinkStep(accounts, req, id, allowed)
            == if Taken(accounts, Requested(req)) then (accounts, Fail(409))
               else if !allowed then (accounts, Fail(403))
               else (accounts + [Account(id, Some(Secret(Some(address), Some(ns + ":" + reference),
                                   if ns == "eip155" then Some(Value(reference)) else None)))], Ok)
  {
    hide Requested, Normalized, Taken, Value, BeforeColon, AfterColon;
    SplitIs(ns + ":" + reference, ns, reference);
  }

  lemma {:induction false} ValidAsks(req: Request) returns (ns: string, reference: string, address: string)
    requires Requested(req).Some?
    ensures Asks(req, ns, reference, address)
  {
    var w := Requested(req).value;
    ResolvedIsCanonical(req.chain, req.chainId);
    SplitAtColon(w.chain);
    ns, reference, address := BeforeColon(w.chain), AfterColon(w.chain), w.address;
    AsksIs(req, ns, reference, address);
  }

  lemma {:induction false} RefusedIffInvalid(accounts: seq<Account>, req: Request, id: nat, allowed: bool)
    ensures LinkStep(accounts, req, id, allowed).1 == Fail(422) <==>
              forall ns, reference, address :: !Asks(req, ns, reference, address)
    ensures LinkStep(accounts, req, id, allowed).1 == Fail(422) ==> LinkStep(accounts, req, id, allowed).0 == accounts
  {
    hide Asks, Requested, Taken, Normalized, Stored;
    if Requested(req).Some? {
      var ns, reference, address := ValidAsks(req);
    } else {
      forall ns, reference, address ensures !Asks(req, ns, reference, address) {
        AsksIs(req, ns, reference, address);
      }
    }
  }

  /** Outside EVM chains two wallets whose addresses differ in any letter, if only in its case, are both
      linked. */
  lemma {:induction false} DifferentAddressesLink(
      first: Request, second: Request, ns: string, reference: string, a: string, b: string, id: nat, id': nat)
    requires Asks(first, ns, reference, a) && Asks(second, ns, reference, b) && ns != "eip155" && a != b
    ensures var (linked, reply) := LinkStep([], first, id, true);
            reply == Ok && LinkStep(linked, second, id', true).1 == Ok
  {
    hide *;
    AsksIs(first, ns, reference, a);
    NothingHeld(ns, reference, a);
    LinkKeeps([], first, id, true, ns, reference, a);
    var linked := LinkStep([], first, id, true).0;
    var kept := Account(id, Some(Secret(Some(a), Some(ns + ":" + reference), None)));
    assert linked == [kept];
    LinkKeeps(linked, second, id', true, ns, reference, b);
    OneHeld(kept, ns, reference, a, b);
  }

  lemma {:induction false} NothingHeld(ns: string, reference: string, address: string)
    ensures !Held([], ns, reference, address)
  {
  }

  lemma {:induction false} OneHeld(kept: Account, ns: string, reference: string, a: string, b: string)
    requires ':' !in ns && ns != "eip155" && a != b
    requires kept.secret == Some(Secret(Some(a), Some(ns + ":" + reference), None))
    ensures !Held([kept], ns, reference, b)
  {
  }
}
