/**
 * The supported network table of lib/config/chains.ts: each mainnet the
 * app settles on, with the contract address of its USDC token.
 */
module Chains {
  import opened Types

  datatype Chain = Chain(id: int, name: string, usdc: string)

  /** `MAINNET_CHAINS`, in table order (the display icons are not modelled). */
  const MainnetChains: seq<Chain> := [
    Chain(1, "Ethereum", "0xA0b86991c6218b36c1d19D4a2e9Eb0cE3606eB48"),
    Chain(137, "Polygon", "0x2791Bca1f2de4661ED88A30C99A7a9449Aa84174"),
    Chain(42161, "Arbitrum", "0xFF970A61A04b1cA14834A43f5dE4533eBDDB5CC8"),
    Chain(10, "Optimism", "0x7F5c764cBc14f9669B88837ca1490cCa17c31607"),
    Chain(56, "BSC", "0x8AC76a51cc950d9822D68b83fE1Ad97B32Cd580d")
  ]

  function Ids(cs: seq<Chain>): seq<int>
  {
    if cs == [] then [] else [cs[0].id] + Ids(cs[1..])
  }

  /** `chains.find(c => c.id === id)`: the first chain with the id, or undefined. */
  function FindChain(cs: seq<Chain>, id: int): (r: Option<Chain>)
  {
    if cs == [] then None
    else if cs[0].id == id then Some(cs[0])
    else FindChain(cs[1..], id)
  }

  lemma {:induction false} FindChainSpec(cs: seq<Chain>, id: int)
    ensures FindChain(cs, id).Some? <==> exists k :: 0 <= k < |cs| && cs[k].id == id
    ensures FindChain(cs, id).Some? ==> FindChain(cs, id).value in cs && FindChain(cs, id).value.id == id
    decreases |cs|
  {
    if cs != [] && cs[0].id != id {
      FindChainSpec(cs[1..], id);
      if exists k :: 0 <= k < |cs| && cs[k].id == id {
        var k :| 0 <= k < |cs| && cs[k].id == id;
        assert cs[1..][k - 1].id == id;
      }
    }
  }

  /** The table lists five networks with distinct ids, so a lookup by id is unambiguous. */
  lemma TableIds()
    ensures Ids(MainnetChains) == [1, 137, 42161, 10, 56]
    ensures forall a, b :: 0 <= a < b < |MainnetChains| ==> MainnetChains[a].id != MainnetChains[b].id
  {
  }
}
