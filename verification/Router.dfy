/** Broker selection of `services/execution/smart_router.py`. */
module Router {
  import opened Wrappers
  import opened Orders

  datatype AssetClass = Stock | Crypto | All

  datatype Broker = Broker(name: string, assetClass: AssetClass, supportsLive: bool)

  predicate DistinctNames(bs: seq<Broker>) {
    forall i, j :: 0 <= i < j < |bs| ==> bs[i].name != bs[j].name
  }

  function TargetClass(symbol: string): AssetClass {
    if '/' in symbol then Crypto else Stock
  }

  predicate Eligible(b: Broker, live: bool) {
    live || !b.supportsLive
  }

  predicate Serves(b: Broker, symbol: string) {
    b.assetClass == TargetClass(symbol) || b.assetClass == All
  }

  function Eligibles(bs: seq<Broker>, live: bool): (r: seq<Broker>)
    ensures forall b :: b in r <==> b in bs && Eligible(b, live)
  {
    if bs == [] then []
    else if Eligible(bs[0], live) then [bs[0]] + Eligibles(bs[1..], live)
    else Eligibles(bs[1..], live)
  }

  function FirstServing(bs: seq<Broker>, symbol: string): (r: Option<Broker>)
    ensures r.Some? ==> r.value in bs && Serves(r.value, symbol)
    ensures r.None? ==> forall b :: b in bs ==> !Serves(b, symbol)
  {
    if bs == [] then None
    else if Serves(bs[0], symbol) then Some(bs[0])
    else FirstServing(bs[1..], symbol)
  }

  function SelectBroker(bs: seq<Broker>, live: bool, symbol: string): Option<string> {
    var eligible := Eligibles(bs, live);
    match FirstServing(eligible, symbol)
    case Some(b) => Some(b.name)
    case None => if eligible == [] then None else Some(eligible[0].name)
  }

  /** The dictionary lookup by name. */
  function Named(bs: seq<Broker>, name: string): (r: Option<Broker>)
    ensures r.Some? ==> r.value in bs && r.value.name == name
    ensures r.None? ==> forall b :: b in bs ==> b.name != name
  {
    if bs == [] then None
    else if bs[0].name == name then Some(bs[0])
    else Named(bs[1..], name)
  }

  lemma {:induction false} NameFindsItsBroker(bs: seq<Broker>, b: Broker)
    requires DistinctNames(bs) && b in bs
    ensures Named(bs, b.name) == Some(b)
  {
    if bs[0] != b {
      NameFindsItsBroker(bs[1..], b);
    }
  }

  /** What a broker is for: everything, or crypto symbols (those with a slash), or the others. */
  predicate Suits(b: Broker, symbol: string) {
    match b.assetClass
    case All => true
    case Crypto => exists i :: 0 <= i < |symbol| && symbol[i] == '/'
    case Stock => forall i :: 0 <= i < |symbol| ==> symbol[i] != '/'
  }

  /** Outside live mode no broker that can place real-money orders. */
  predicate Safe(b: Broker, live: bool) {
    b.supportsLive ==> live
  }

  lemma ServesWhatItSuits(b: Broker, live: bool, symbol: string)
    ensures Serves(b, symbol) <==> Suits(b, symbol)
    ensures Eligible(b, live) <==> Safe(b, live)
  {
  }

  /** The broker is the first safe one for the symbol: first of those that suit it, or first of all
      safe ones if none suits it. */
  ghost predicate FirstChoice(bs: seq<Broker>, live: bool, symbol: string, k: nat)
    requires k < |bs|
  {
    if exists b :: b in bs && Safe(b, live) && Suits(b, symbol)
    then
      && Safe(bs[k], live) && Suits(bs[k], symbol)
      && forall i :: 0 <= i < k && Safe(bs[i], live) ==> !Suits(bs[i], symbol)
    else
      Safe(bs[k], live) && forall i :: 0 <= i < k ==> !Safe(bs[i], live)
  }

  lemma {:induction false} FirstServingExactlyWhen(bs: seq<Broker>, live: bool, symbol: string, k: nat)
    requires DistinctNames(bs) && k < |bs|
    ensures FirstServing(Eligibles(bs, live), symbol) == Some(bs[k]) <==>
            Eligible(bs[k], live) && Serves(bs[k], symbol) && forall i :: 0 <= i < k && Eligible(bs[i], live) ==> !Serves(bs[i], symbol)
  {
    hide Serves, Eligible;
    if k == 0 {
    } else {
      FirstServingExactlyWhen(bs[1..], live, symbol, k - 1);
      assert forall i :: 0 < i < |bs| ==> bs[1..][i - 1] == bs[i];
    }
  }

  lemma {:induction false} FirstEligibleExactlyWhen(bs: seq<Broker>, live: bool, k: nat)
    requires DistinctNames(bs) && k < |bs|
    ensures (Eligibles(bs, live) != [] && Eligibles(bs, live)[0] == bs[k]) <==>
            Eligible(bs[k], live) && forall i :: 0 <= i < k ==> !Eligible(bs[i], live)
  {
    if k == 0 {
    } else {
      FirstEligibleExactlyWhen(bs[1..], live, k - 1);
      assert forall i :: 0 < i < |bs| ==> bs[1..][i - 1] == bs[i];
    }
  }

  lemma NamesTellApart(bs: seq<Broker>, a: Broker, b: Broker)
    requires DistinctNames(bs) && a in bs && b in bs
    ensures a.name == b.name <==> a == b
  {
  }

  /** The symbol and the wiring order alone decide: a broker gets an order exactly when it comes
      first among the eligible ones for it. */
  lemma SelectsExactlyWhen(bs: seq<Broker>, live: bool, symbol: string, k: nat)
    requires DistinctNames(bs) && k < |bs|
    ensures SelectBroker(bs, live, symbol) == Some(bs[k].name) <==> FirstChoice(bs, live, symbol, k)
  {
    hide Serves, Eligible, Suits, Safe, FirstServing, Eligibles, DistinctNames;
    FirstServingExactlyWhen(bs, live, symbol, k);
    FirstEligibleExactlyWhen(bs, live, k);
    forall b ensures (Serves(b, symbol) <==> Suits(b, symbol)) && (Eligible(b, live) <==> Safe(b, live)) {
      ServesWhatItSuits(b, live, symbol);
    }
    var eligible := Eligibles(bs, live);
    var first := FirstServing(eligible, symbol);
    if first.Some? {
      NamesTellApart(bs, first.value, bs[k]);
      assert first.value in bs && Safe(first.value, live) && Suits(first.value, symbol);
    } else {
      assert forall b :: b in bs && Safe(b, live) ==> !Suits(b, symbol);
      if eligible != [] {
        NamesTellApart(bs, eligible[0], bs[k]);
      } else {
        assert forall b :: b in bs ==> !Safe(b, live);
      }
    }
  }

  /** In whatever order the brokers are wired: no order is refused while an eligible broker
      exists, the broker chosen is in the dictionary, may not place real-money orders outside
      live mode, and serves the symbol's asset class whenever some eligible broker does. */
  lemma SelectionIsSafe(bs: seq<Broker>, live: bool, symbol: string)
    requires DistinctNames(bs)
    ensures var choice := SelectBroker(bs, live, symbol);
            && (choice.None? <==> forall b :: b in bs ==> !Safe(b, live))
            && (choice.Some? ==>
                  exists b :: b in bs && Named(bs, choice.value) == Some(b) && Safe(b, live)
                    && ((exists other :: other in bs && Safe(other, live) && Suits(other, symbol)) ==> Suits(b, symbol)))
  {
    forall b ensures (Serves(b, symbol) <==> Suits(b, symbol)) && (Eligible(b, live) <==> Safe(b, live)) {
      ServesWhatItSuits(b, live, symbol);
    }
    hide Serves, Eligible, Suits, Safe;
    var eligible := Eligibles(bs, live);
    var choice := SelectBroker(bs, live, symbol);
    if choice.Some? {
      var b := if FirstServing(eligible, symbol).Some? then FirstServing(eligible, symbol).value else eligible[0];
      NameFindsItsBroker(bs, b);
    } else {
      assert forall b :: b in bs && Eligible(b, live) ==> b in eligible;
    }
  }
}
