/** The nearest-neighbour finder the engine owns (`locality::NearestNeighbors`).
    Its search algorithm is not part of this model: the model keeps what the
    engine relies on, namely the configuration it was built from and the point
    set and neighbour lists of its latest `compute`. */
module Locality {
  import opened Values

  /** The inputs a finder is constructed from. */
  datatype Config = Config(box: Box, rmax: real, k: nat)

  class NearestNeighbors {
    /** None for the default-constructed (empty) finder. */
    const config: Option<Config>
    /** The point set indexed by the latest `Compute`. */
    var points: seq<Vec3>
    /** For each indexed particle, its neighbours, nearest first. */
    var lists: seq<seq<nat>>

    /** The empty finder a freshly constructed engine starts with. */
    constructor Empty()
      ensures config == None
      ensures points == [] && lists == []
    {
      config := None;
      points := [];
      lists := [];
    }

    /** A finder built for `box` with cutoff `rmax` and `k` neighbours per particle. */
    constructor (box: Box, rmax: real, k: nat)
      ensures config == Some(Config(box, rmax, k))
      ensures points == [] && lists == []
    {
      config := Some(Config(box, rmax, k));
      points := [];
      lists := [];
    }

    /** Indexes `points` (`n` of them). `found` is what the search returns for
        each particle; how it is found is not part of this model. */
    method Compute(points: seq<Vec3>, n: nat, found: seq<seq<nat>>)
      requires |points| == n
      modifies this
      ensures this.points == points && lists == found
    {
      this.points := points;
      lists := found;
    }
  }
}
