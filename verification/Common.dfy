/** Types shared by the modules of the model. */
module Common {
  /** Node, peer and transfer identifiers are opaque strings; "" means "not set". */
  type NodeId = string

  /** Chunk payloads. The code never looks inside them except to hash them. */
  type Bytes = seq<bv8>

  datatype Option<+T> = None | Some(value: T)

  datatype Result<+T, +E> = Ok(value: T) | Err(error: E)

  /** Any number of distinct identifiers, for results that construct a mesh. */
  function Name(i: nat): (name: NodeId)
    ensures |name| == i + 1
  {
    seq(i + 1, _ => 'n')
  }

  function Names(i: nat, n: nat): seq<NodeId> {
    seq(n, k requires 0 <= k < n => Name(i + k))
  }
}
