/** The coordinates a router puts into messages survive the zero-terminated wire format. */
module Emitted {
  import opened Basics
  import opened Bits
  import opened Tree
  import opened RouterSpec
  import Runs = RouterRuns
  import Wire

  lemma {:induction false} CoordsZeroFree(infos: Infos, chain: seq<Key>)
    requires RootChain(infos, chain)
    requires forall k :: k in infos && infos[k].parent != k ==> infos[k].port != 0
    ensures 0 !in Coords(infos, chain)
  {
    if |chain| <= 1 {
    } else {
      CoordsZeroFree(infos, chain[1..]);
    }
  }

  /** In every reachable state, the coordinates of every node decode to what they were. */
  lemma EmittedPathsDecode(c: Crypto, states: seq<State>, events: seq<Runs.Event>, i: nat, k: Key, rest: seq<Byte>)
    requires c.Lawful() && Runs.Run(c, states, events) && i < |states|
    ensures var path := PathOf(states[i].infos, k).path;
            Wire.DecodePathAt(Wire.Path(path) + rest) == Some(Wire.Read(path, |Wire.Path(path)|))
  {
    var infos := states[i].infos;
    Runs.RunKeeps(c, states, events, i);
    assert forall n :: n in infos ==> Check(c, Announce(n, infos[n]));
    if Rooted(infos, k) {
      CoordsZeroFree(infos, ChainOf(infos, k));
    }
    Wire.PathRoundTrip(PathOf(infos, k).path, rest);
  }
}
