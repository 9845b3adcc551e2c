/** How a pool transaction was received, kept as flags that only ever upgrade (blockchain_db.cpp). */
module RelayMethods {
  datatype Method = NoRelay | Local | Forward | Stem | Fluff | InBlock
  datatype Category = Broadcasted | Relayable | Legacy | All

  type Byte = x: int | 0 <= x < 256

  function Ordinal(m: Method): (n: nat)
    ensures n <= 5
  {
    match m case NoRelay => 0 case Local => 1 case Forward => 2 case Stem => 3 case Fluff => 4 case InBlock => 5
  }

  function Max(a: Method, b: Method): Method {
    if Ordinal(a) < Ordinal(b) then b else a
  }

  /** The category a method belongs to. */
  predicate Matches(m: Method, c: Category) {
    match c
    case All => true
    case Relayable => m != NoRelay
    case Broadcasted => m == InBlock || m == Fluff
    case Legacy => m == InBlock || m == Fluff || m == NoRelay
  }

  /** By the order of the methods: broadcasted are the last two, relayable all but the first, legacy both ends. */
  lemma CategoriesByRank(m: Method)
    ensures Matches(m, Broadcasted) <==> Ordinal(m) >= Ordinal(Fluff)
    ensures Matches(m, Relayable) <==> Ordinal(m) > Ordinal(NoRelay)
    ensures Matches(m, Legacy) <==> Matches(m, Broadcasted) || !Matches(m, Relayable)
    ensures Matches(m, All)
  {
  }

  /** matches_category as the source decides it. */
  method MatchesCategory(m: Method, c: Category) returns (yes: bool)
    ensures yes <==> Matches(m, c)
  {
    match c {
      case All => return true;
      case Relayable => return m != NoRelay;
      case Broadcasted =>
      case Legacy =>
    }
    match m {
      case Local => return false;
      case Forward => return false;
      case Stem => return false;
      case InBlock => return true;
      case Fluff => return true;
      case NoRelay =>
    }
    return c == Legacy;
  }

  /** The flags: two whole bytes and three single bits. */
  datatype Flags = Flags(keptByBlock: Byte, doNotRelay: Byte, isLocal: bool, isForwarding: bool, dandelionppStem: bool)

  function Bit(b: bool): Byte {
    if b then 1 else 0
  }

  /** get_relay_method, whose sum is cut to a byte and falls back to fluff. */
  function MethodOf(f: Flags): Method {
    var state := (f.keptByBlock + 2 * f.doNotRelay + 4 * Bit(f.isLocal) + 8 * Bit(f.isForwarding) + 16 * Bit(f.dandelionppStem)) % 256;
    if state == 1 then InBlock
    else if state == 2 then NoRelay
    else if state == 4 then Local
    else if state == 8 then Forward
    else if state == 16 then Stem
    else Fluff
  }

  function FlagsOf(m: Method): Flags {
    Flags(Bit(m == InBlock), Bit(m == NoRelay), m == Local, m == Forward, m == Stem)
  }

  lemma FlagsRoundTrip(m: Method)
    ensures MethodOf(FlagsOf(m)) == m
  {
    match m case NoRelay => case Local => case Forward => case Stem => case Fluff => case InBlock =>
  }

  /** Flags of which any but one is set, or none, mean fluff; every other method has one pattern of flags. */
  lemma FlagsDetermine(f: Flags, m: Method)
    requires f.keptByBlock <= 1 && f.doNotRelay <= 1 && m != Fluff
    ensures MethodOf(f) == m <==> f == FlagsOf(m)
  {
  }

  class TxMeta {
    var keptByBlock: Byte
    var doNotRelay: Byte
    var isLocal: bool
    var isForwarding: bool
    var dandelionppStem: bool

    function Value(): Flags
      reads this
    {
      Flags(keptByBlock, doNotRelay, isLocal, isForwarding, dandelionppStem)
    }

    function GetRelayMethod(): Method
      reads this
    {
      MethodOf(Value())
    }

    method SetRelayMethod(m: Method)
      modifies this
      ensures Value() == FlagsOf(m) && GetRelayMethod() == m
    {
      hide MethodOf;
      FlagsRoundTrip(m);
      keptByBlock, doNotRelay, isLocal, isForwarding, dandelionppStem := 0, 0, false, false, false;
      match m {
        case NoRelay => doNotRelay := 1;
        case Local => isLocal := true;
        case Forward => isForwarding := true;
        case Stem => dandelionppStem := true;
        case InBlock => keptByBlock := 1;
        case Fluff =>
      }
    }

    method UpgradeRelayMethod(m: Method) returns (upgraded: bool)
      modifies this
      ensures upgraded <==> Ordinal(old(GetRelayMethod())) < Ordinal(m)
      ensures GetRelayMethod() == Max(old(GetRelayMethod()), m)
      ensures Value() == Upgraded(old(Value()), m)
    {
      if Ordinal(GetRelayMethod()) < Ordinal(m) {
        SetRelayMethod(m);
        return true;
      }
      return false;
    }
  }

  // ----- Runs of upgrades -----

  function Upgraded(f: Flags, m: Method): Flags {
    if Ordinal(MethodOf(f)) < Ordinal(m) then FlagsOf(m) else f
  }

  function AfterUpgrades(f: Flags, ms: seq<Method>): Flags {
    if ms == [] then f else Upgraded(AfterUpgrades(f, ms[..|ms| - 1]), ms[|ms| - 1])
  }

  /** How many of the calls return true. */
  function Upgrades(f: Flags, ms: seq<Method>): nat {
    if ms == [] then 0
    else
      var n := |ms| - 1;
      Upgrades(f, ms[..n]) + if Ordinal(MethodOf(AfterUpgrades(f, ms[..n]))) < Ordinal(ms[n]) then 1 else 0
  }

  /** From any flags, the method after a run is the largest of the first one and those requested. */
  lemma {:induction false} UpgradesReachMaximum(f: Flags, ms: seq<Method>)
    ensures var last := MethodOf(AfterUpgrades(f, ms));
            && (last == MethodOf(f) || last in ms)
            && Ordinal(MethodOf(f)) <= Ordinal(last)
            && forall i :: 0 <= i < |ms| ==> Ordinal(ms[i]) <= Ordinal(last)
  {
    hide MethodOf, FlagsOf;
    if ms != [] {
      var n := |ms| - 1;
      UpgradesReachMaximum(f, ms[..n]);
      FlagsRoundTrip(ms[n]);
    }
  }

  /** The order of the calls does not matter. */
  lemma UpgradesCommute(f: Flags, ms: seq<Method>, ns: seq<Method>)
    requires forall m :: m in ms <==> m in ns
    ensures MethodOf(AfterUpgrades(f, ms)) == MethodOf(AfterUpgrades(f, ns))
  {
    hide MethodOf, AfterUpgrades;
    UpgradesReachMaximum(f, ms);
    UpgradesReachMaximum(f, ns);
  }

  /** At most five calls of a run return true: each raises the method by at least one. */
  lemma {:induction false} UpgradesAreFew(f: Flags, ms: seq<Method>)
    ensures Upgrades(f, ms) <= Ordinal(MethodOf(AfterUpgrades(f, ms))) - Ordinal(MethodOf(f)) <= 5
  {
    hide MethodOf, FlagsOf;
    if ms != [] {
      UpgradesAreFew(f, ms[..|ms| - 1]);
      FlagsRoundTrip(ms[|ms| - 1]);
    }
  }

  /** Once a transaction is broadcasted or relayable it stays so, whatever is requested later. */
  lemma MatchesForever(f: Flags, ms: seq<Method>, c: Category)
    requires c != Legacy && Matches(MethodOf(f), c)
    ensures Matches(MethodOf(AfterUpgrades(f, ms)), c)
  {
    hide MethodOf, AfterUpgrades;
    UpgradesReachMaximum(f, ms);
  }

  /** Of the four categories only the legacy one can be left by upgrading. */
  lemma OnlyLegacyIsLeft(c: Category)
    ensures (forall a, b :: Ordinal(a) <= Ordinal(b) && Matches(a, c) ==> Matches(b, c)) <==> c != Legacy
  {
    if c == Legacy {
      assert Matches(NoRelay, c) && !Matches(Local, c);
    }
  }

  /** The call reports false, though the method is the one requested, exactly when it already was. */
  lemma UpgradeToSame(f: Flags, m: Method)
    ensures !(Ordinal(MethodOf(f)) < Ordinal(m)) && MethodOf(Upgraded(f, m)) == m <==> MethodOf(f) == m
  {
    hide MethodOf, FlagsOf;
    FlagsRoundTrip(m);
  }
}
