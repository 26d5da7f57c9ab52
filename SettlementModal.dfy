/**
 * The settlement dialog of components/SettlementModal.tsx: which networks
 * a debt can be paid to, how a route is chosen, which wallet network a
 * payment is sent on, and how a failed payment is reported.
 *
 * The route service and the wallet are outside the model: what they answer
 * is a parameter of the operation that asks them.
 */
module SettlementModal {
  import opened Types
  import opened Chains

  /** The debt the dialog settles, as the dashboard passes it in. */
  datatype Debt = Debt(from: string, to: string, amount: real, currency: string)

  /**
   * A payment route. The direct route is built here; every other route is
   * one the route service answered with. Token amounts are in the token's
   * smallest unit (six decimals for USDC).
   */
  datatype Route = Route(
    id: string,
    fromChainId: int,
    toChainId: int,
    fromAmount: int,
    toAmount: int,
    estimatedTime: int,
    estimatedGas: string,
    isDirect: bool)

  /** The question sent to the route service for a cross-chain payment. */
  datatype RouteRequest = RouteRequest(
    fromChain: int,
    toChain: int,
    fromToken: string,
    toToken: string,
    fromAmount: int,
    fromAddress: string,
    toAddress: string)

  /** A thrown error: its `code` and `message` properties, either possibly missing. */
  datatype Failure = Failure(code: Option<string>, message: Option<string>)

  /** What the route service does with a request: answer with routes, or throw. */
  datatype RouteAnswer = Found(routes: seq<Route>) | RouteFailed(failure: Failure)

  /** What the wallet does with a payment: return its transaction hash, or throw. */
  datatype Execution = Executed(txHash: string) | Threw(failure: Failure)

  /** The part of the dialog's state that a route search sets. */
  datatype Panel = Panel(routes: seq<Route>, selected: Option<Route>, error: Option<string>)

  const DefaultFromChain: int := 1
  const DefaultToChain: int := 42161
  const DirectRouteId: string := "direct-transfer"
  const InvalidChainMessage: string := "Invalid chain selection"
  const NoRoutesMessage: string := "No routes found. Try different chains or check if you have sufficient balance."
  const RouteFailureMessage: string := "Failed to get routes"
  const ConnectWalletMessage: string := "\U{26A0}\U{FE0F} Please connect your wallet (MetaMask or similar) to execute the settlement."
  const RejectedMessage: string := "\U{274C} Transaction rejected by user"
  const NoGasMessage: string := "\U{274C} Insufficient funds for gas fees"
  const CancelledMessage: string := "\U{274C} Transaction cancelled"
  const SettleFailureMessage: string := "Failed to settle debt. Please try again."

  /** `Math.floor(amount * 1000000)`: the amount in USDC's smallest unit. */
  function Units(amount: real): int
  {
    (amount * 1000000.0).Floor
  }

  /** The unit amount is the largest whole number of micro-dollars not above the amount. */
  lemma UnitsSpec(amount: real)
    ensures Units(amount) as real <= amount * 1000000.0 < Units(amount) as real + 1.0
  {
  }

  /** An amount in whole cents converts without loss: `c` cents is `c * 10000` units. */
  lemma UnitsOfCents(c: int)
    ensures Units(c as real / 100.0) == c * 10000
  {
    assert (c as real / 100.0) * 1000000.0 == (c * 10000) as real;
  }

  /** `s.includes(part)` */
  predicate Contains(s: string, part: string)
  {
    exists i :: 0 <= i <= |s| - |part| && part <= s[i..]
  }

  /** `chains.filter(c => ids.includes(c.id))`, keeping table order. */
  function Filter(cs: seq<Chain>, ids: seq<int>): seq<Chain>
  {
    if cs == [] then []
    else (if cs[0].id in ids then [cs[0]] else []) + Filter(cs[1..], ids)
  }

  /**
   * The destination networks offered: the whole table when the creditor has
   * no preferred networks (absent or empty), else the table's networks the
   * creditor prefers.
   */
  function AvailableToChains(preferred: Option<seq<int>>): seq<Chain>
  {
    if preferred.Some? && |preferred.value| > 0 then Filter(MainnetChains, preferred.value)
    else MainnetChains
  }

  /** The filter keeps exactly the chains whose id is listed, in their order. */
  lemma {:induction false} FilterSpec(cs: seq<Chain>, ids: seq<int>)
    ensures forall c :: c in Filter(cs, ids) <==> c in cs && c.id in ids
    ensures |Filter(cs, ids)| <= |cs|
    ensures Filter(cs, ids) == [] <==> forall k :: 0 <= k < |cs| ==> cs[k].id !in ids
    decreases |cs|
  {
    if cs != [] {
      FilterSpec(cs[1..], ids);
      assert forall c :: c in cs <==> c == cs[0] || c in cs[1..];
      assert forall k :: 1 <= k < |cs| ==> cs[k] == cs[1..][k - 1];
    }
  }

  /**
   * The filter keeps table order: filtering a table split in two gives the
   * kept chains of the first part, then those of the second.
   */
  lemma {:induction false} FilterAppend(a: seq<Chain>, b: seq<Chain>, ids: seq<int>)
    ensures Filter(a + b, ids) == Filter(a, ids) + Filter(b, ids)
    decreases |a|
  {
    if a == [] {
      assert a + b == b;
    } else {
      var head := if a[0].id in ids then [a[0]] else [];
      assert (a + b)[1..] == a[1..] + b;
      assert Filter(a + b, ids) == head + Filter(a[1..] + b, ids);
      FilterAppend(a[1..], b, ids);
      assert head + (Filter(a[1..], ids) + Filter(b, ids)) == (head + Filter(a[1..], ids)) + Filter(b, ids);
    }
  }

  /**
   * The offered networks are the table's networks the creditor prefers, in
   * table order; without preferences they are the whole table. Preferred
   * ids the table does not know are ignored, so a preference list with no
   * known id offers nothing.
   */
  lemma AvailableToChainsSpec(preferred: Option<seq<int>>)
    ensures preferred.None? || preferred.value == [] ==> AvailableToChains(preferred) == MainnetChains
    ensures preferred.Some? && preferred.value != [] ==>
      forall c :: c in AvailableToChains(preferred) <==> c in MainnetChains && c.id in preferred.value
    ensures preferred.Some? && preferred.value != [] ==>
      (AvailableToChains(preferred) == [] <==> forall k :: 0 <= k < |MainnetChains| ==> MainnetChains[k].id !in preferred.value)
  {
    if preferred.Some? && preferred.value != [] {
      FilterSpec(MainnetChains, preferred.value);
    }
  }

  /**
   * The effect that keeps the destination valid: when some network is
   * offered and the current one is not among them, switch to the first
   * offered one; otherwise leave it.
   */
  function ResetToChain(available: seq<Chain>, toChain: int): int
  {
    if |available| > 0 && !(exists k :: 0 <= k < |available| && available[k].id == toChain)
    then available[0].id
    else toChain
  }

  /**
   * After the effect the destination is an offered network whenever one is
   * offered; an offered destination is kept; and running the effect again
   * changes nothing.
   */
  lemma ResetToChainSpec(available: seq<Chain>, toChain: int)
    ensures |available| > 0 ==> exists k :: 0 <= k < |available| && available[k].id == ResetToChain(available, toChain)
    ensures (exists k :: 0 <= k < |available| && available[k].id == toChain) ==> ResetToChain(available, toChain) == toChain
    ensures available == [] ==> ResetToChain(available, toChain) == toChain
    ensures ResetToChain(available, ResetToChain(available, toChain)) == ResetToChain(available, toChain)
  {
    if |available| > 0 {
      assert available[0].id == available[0].id;
    }
  }

  /** The wallet library's network objects the dialog can pick. */
  datatype ViemChain = Mainnet | Polygon | Arbitrum | Optimism | Bsc

  /** The chain id each wallet network object carries. */
  function ViemChainId(v: ViemChain): int
  {
    match v
    case Mainnet => 1
    case Polygon => 137
    case Arbitrum => 42161
    case Optimism => 10
    case Bsc => 56
  }

  /** `getViemChain`: the wallet network for a chain id, Ethereum mainnet for any other id. */
  function GetViemChain(chainId: int): ViemChain
  {
    if chainId == 1 then Mainnet
    else if chainId == 137 then Polygon
    else if chainId == 42161 then Arbitrum
    else if chainId == 10 then Optimism
    else if chainId == 56 then Bsc
    else Mainnet
  }

  /**
   * Every table network is paid on the wallet network with its own chain
   * id; an id the table does not list falls back to Ethereum mainnet.
   */
  lemma GetViemChainSpec(chainId: int)
    ensures (exists k :: 0 <= k < |MainnetChains| && MainnetChains[k].id == chainId) ==> ViemChainId(GetViemChain(chainId)) == chainId
    ensures (forall k :: 0 <= k < |MainnetChains| ==> MainnetChains[k].id != chainId) ==> GetViemChain(chainId) == Mainnet
  {
    if exists k :: 0 <= k < |MainnetChains| && MainnetChains[k].id == chainId {
      var k :| 0 <= k < |MainnetChains| && MainnetChains[k].id == chainId;
      assert k == 0 || k == 1 || k == 2 || k == 3 || k == 4;
    } else {
      assert MainnetChains[0].id != chainId && MainnetChains[1].id != chainId && MainnetChains[2].id != chainId
        && MainnetChains[3].id != chainId && MainnetChains[4].id != chainId;
    }
  }

  /** `x || fallback` on an optional string: an absent or empty string gives way to the fallback. */
  function OrElse(s: Option<string>, fallback: string): string
  {
    if s.Some? && s.value != "" then s.value else fallback
  }

  /** The message shown when a payment throws. */
  function SettleErrorMessage(f: Failure): string
  {
    if f.code == Some("ACTION_REJECTED") then RejectedMessage
    else if f.message.Some? && Contains(f.message.value, "insufficient funds") then NoGasMessage
    else if f.message.Some? && Contains(f.message.value, "user rejected") then CancelledMessage
    else OrElse(f.message, SettleFailureMessage)
  }

  /**
   * The wallet's rejection code wins over any message; "insufficient funds"
   * wins over "user rejected"; a message with neither phrase is shown as it
   * is, and the generic text replaces a missing or empty one. Nothing is
   * reported as an empty message.
   */
  lemma SettleErrorMessageSpec(f: Failure)
    ensures f.code == Some("ACTION_REJECTED") ==> SettleErrorMessage(f) == RejectedMessage
    ensures (f.code != Some("ACTION_REJECTED") && f.message.Some? && Contains(f.message.value, "insufficient funds"))
      ==> SettleErrorMessage(f) == NoGasMessage
    ensures (f.code != Some("ACTION_REJECTED") && f.message.Some? && !Contains(f.message.value, "insufficient funds")
      && Contains(f.message.value, "user rejected")) ==> SettleErrorMessage(f) == CancelledMessage
    ensures (f.code != Some("ACTION_REJECTED") && f.message.Some? && f.message.value != ""
      && !Contains(f.message.value, "insufficient funds") && !Contains(f.message.value, "user rejected"))
      ==> SettleErrorMessage(f) == f.message.value
    ensures ((f.message.None? || f.message == Some("")) && f.code != Some("ACTION_REJECTED"))
      ==> SettleErrorMessage(f) == SettleFailureMessage
    ensures SettleErrorMessage(f) != ""
  {
    if f.message == Some("") {
      assert !Contains("", "insufficient funds");
      assert !Contains("", "user rejected");
    }
  }

  /** The direct route for paying on one network: the whole amount in, the whole amount out. */
  function DirectRoute(chainId: int, amount: real): Route
  {
    Route(DirectRouteId, chainId, chainId, Units(amount), Units(amount), 15, "100000000000000", true)
  }

  /** The request sent for a cross-chain payment between two table networks. */
  function Request(from: Chain, to: Chain, debt: Debt): RouteRequest
  {
    RouteRequest(from.id, to.id, from.usdc, to.usdc, Units(debt.amount), debt.from, debt.to)
  }

  /** Whether handleGetRoutes asks the route service: both ids are in the table and they differ. */
  predicate AsksService(fromChain: int, toChain: int)
  {
    FindChain(MainnetChains, fromChain).Some? && FindChain(MainnetChains, toChain).Some? && fromChain != toChain
  }

  /** The panel handleGetRoutes leaves behind, given what the route service answers. */
  function RoutesPanel(fromChain: int, toChain: int, debt: Debt, answer: RouteAnswer): Panel
  {
    if FindChain(MainnetChains, fromChain).None? || FindChain(MainnetChains, toChain).None? then
      Panel([], None, Some(InvalidChainMessage))
    else if fromChain == toChain then
      Panel([DirectRoute(fromChain, debt.amount)], Some(DirectRoute(fromChain, debt.amount)), None)
    else
      match answer
      case Found(rs) =>
        if |rs| > 0 then Panel(rs, Some(rs[0]), None) else Panel(rs, None, Some(NoRoutesMessage))
      case RouteFailed(f) => Panel([], None, Some(OrElse(f.message, RouteFailureMessage)))
  }

  /**
   * A route search ends with exactly one of a selected route and an error.
   * The selected route is one of the listed routes: the first one the
   * service found, or the direct route when both ends are the same network,
   * which moves the whole debt in micro-dollars. An unknown network at
   * either end is an error before anything is asked.
   */
  lemma RoutesPanelSpec(fromChain: int, toChain: int, debt: Debt, answer: RouteAnswer)
    ensures var p := RoutesPanel(fromChain, toChain, debt, answer);
      (p.selected.Some? <==> p.error.None?)
      && (p.selected.Some? ==> p.selected.value in p.routes)
      && (p.error.Some? ==> p.error.value != "")
    ensures ((forall k :: 0 <= k < |MainnetChains| ==> MainnetChains[k].id != fromChain)
             || (forall k :: 0 <= k < |MainnetChains| ==> MainnetChains[k].id != toChain)) ==>
      RoutesPanel(fromChain, toChain, debt, answer) == Panel([], None, Some(InvalidChainMessage))
    ensures FindChain(MainnetChains, fromChain).Some? && fromChain == toChain ==>
      var p := RoutesPanel(fromChain, toChain, debt, answer);
      p.selected.Some? && p.selected.value.isDirect && p.selected.value.id == DirectRouteId
      && p.selected.value.fromAmount == p.selected.value.toAmount == Units(debt.amount)
      && p.selected.value.fromChainId == p.selected.value.toChainId == fromChain
    ensures AsksService(fromChain, toChain) && answer.Found? && answer.routes != [] ==>
      RoutesPanel(fromChain, toChain, debt, answer).selected == Some(answer.routes[0])
  {
    FindChainSpec(MainnetChains, fromChain);
    FindChainSpec(MainnetChains, toChain);
  }

  /** The dialog's own state, as its React state hooks hold it. */
  class Modal {
    const debt: Debt
    const preferredChains: Option<seq<int>>
    var isLoading: bool
    var fromChain: int
    var toChain: int
    var routes: seq<Route>
    var selectedRoute: Option<Route>
    var error: Option<string>

    /** What the dialog shows of a route search. */
    function Shown(): Panel
      reads this
    {
      Panel(routes, selectedRoute, error)
    }

    /** The dialog opens paying from Ethereum to Arbitrum, with nothing searched yet. */
    constructor(debt: Debt, preferredChains: Option<seq<int>>)
      ensures this.debt == debt && this.preferredChains == preferredChains
      ensures !isLoading && fromChain == DefaultFromChain && toChain == DefaultToChain
      ensures routes == [] && selectedRoute == None && error == None
    {
      this.debt := debt;
      this.preferredChains := preferredChains;
      isLoading := false;
      fromChain := DefaultFromChain;
      toChain := DefaultToChain;
      routes := [];
      selectedRoute := None;
      error := None;
    }

    /** The effect on the destination network, run whenever it or the preferences change. */
    method SyncToChain()
      modifies this
      ensures toChain == ResetToChain(AvailableToChains(preferredChains), old(toChain))
      ensures isLoading == old(isLoading) && fromChain == old(fromChain) && Shown() == old(Shown())
    {
      var available := AvailableToChains(preferredChains);
      if |available| > 0 {
        var isValid := exists k :: 0 <= k < |available| && available[k].id == toChain;
        if !isValid {
          toChain := available[0].id;
        }
      }
    }

    /**
     * handleGetRoutes. `answer` is what the route service does with the
     * request; `request` is the request sent, or `None` when none is.
     */
    method GetRoutes(answer: RouteAnswer) returns (request: Option<RouteRequest>)
      modifies this
      ensures Shown() == RoutesPanel(fromChain, toChain, debt, answer)
      ensures !isLoading && fromChain == old(fromChain) && toChain == old(toChain)
      ensures request.Some? <==> AsksService(fromChain, toChain)
      ensures request.Some? ==> request == Some(Request(FindChain(MainnetChains, fromChain).value,
                                                        FindChain(MainnetChains, toChain).value, debt))
    {
      isLoading := true;
      error := None;
      routes := [];
      selectedRoute := None;
      request := None;

      var fromChainData := FindChain(MainnetChains, fromChain);
      var toChainData := FindChain(MainnetChains, toChain);
      if fromChainData.None? || toChainData.None? {
        error := Some(InvalidChainMessage);
        isLoading := false;
        return;
      }

      if fromChain == toChain {
        var amountInUnits := Units(debt.amount);
        var directRoute := Route(DirectRouteId, fromChain, toChain, amountInUnits, amountInUnits, 15, "100000000000000", true);
        routes := [directRoute];
        selectedRoute := Some(directRoute);
        isLoading := false;
        return;
      }

      FindChainSpec(MainnetChains, fromChain);
      FindChainSpec(MainnetChains, toChain);
      var routeRequest := RouteRequest(fromChain, toChain, fromChainData.value.usdc, toChainData.value.usdc,
                                       Units(debt.amount), debt.from, debt.to);
      request := Some(routeRequest);
      match answer {
        case Found(foundRoutes) =>
          routes := foundRoutes;
          if |foundRoutes| > 0 {
            selectedRoute := Some(foundRoutes[0]);
          } else {
            error := Some(NoRoutesMessage);
          }
        case RouteFailed(f) =>
          error := Some(OrElse(f.message, RouteFailureMessage));
      }
      isLoading := false;
    }

    /**
     * handleSettle, from the wallet check to the reported outcome.
     * `walletPresent` is whether the browser has a wallet; `execution` is
     * what the wallet does with the payment. Returns the transaction hash
     * handed to onSettle on success; onSettle is always followed by
     * onClose, so a returned hash also means the dialog is closed. Closing
     * belongs to the parent component and is not modelled further.
     */
    method Settle(walletPresent: bool, execution: Execution) returns (settled: Option<string>)
      modifies this
      ensures selectedRoute == old(selectedRoute) && routes == old(routes)
      ensures fromChain == old(fromChain) && toChain == old(toChain)
      ensures old(selectedRoute).None? ==> settled.None? && error == old(error) && isLoading == old(isLoading)
      ensures old(selectedRoute).Some? ==> !isLoading
      ensures old(selectedRoute).Some? && !walletPresent ==> settled.None? && error == Some(ConnectWalletMessage)
      ensures old(selectedRoute).Some? && walletPresent && execution.Executed? ==>
        settled == Some(execution.txHash) && error.None?
      ensures old(selectedRoute).Some? && walletPresent && execution.Threw? ==>
        settled.None? && error == Some(SettleErrorMessage(execution.failure))
    {
      settled := None;
      if selectedRoute.None? {
        return;
      }
      isLoading := true;
      error := None;
      if !walletPresent {
        error := Some(ConnectWalletMessage);
        isLoading := false;
        return;
      }
      match execution {
        case Executed(hash) =>
          settled := Some(hash);
        case Threw(f) =>
          error := Some(SettleErrorMessage(f));
      }
      isLoading := false;
    }
  }
}
