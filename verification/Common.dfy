/** Small shared vocabulary: optional values and the opaque text types of the data plane. */
module Common {

  datatype Option<+T> = None | Some(value: T)

  /** Object UIDs and content digests are only ever compared, so any countable set of names will do. */
  type Uid = nat
  type Digest = nat
  type Json = string
  type Patch = string
  type Blob = string

  /** The empty UID and the empty digest column. */
  const NO_UID: Uid := 0
  const NO_DIGEST: Digest := 0

  /** A kind as a rule names it. */
  datatype Gvk = Gvk(group: string, version: string, kind: string)

  /** The list kept under a key, empty when there is none. */
  function ListAt<K, T>(m: map<K, seq<T>>, key: K): seq<T> {
    if key in m then m[key] else []
  }
}
