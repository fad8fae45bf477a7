/** Statuses as they travel over HTTP, and the codecs that serialize what travels. */
module HttpStatus {
  import opened Prelude
  import opened Framing

  /** An error detail, identified with its serialized form. */
  type Detail = Bytes

  /** A gRPC status, as status.FromError extracts it from an error; its message is
      any bytes. */
  datatype Stat = Stat(code: Int32, message: Bytes, details: seq<Detail>)

  const CODE_OK: Int32 := 0
  const INTERNAL: Int32 := 13

  /** The name of the code for success. */
  const OK_TEXT: Bytes := [79, 75]

  /** An error whose code says OK is sent as an internal error. */
  function EffectiveStat(st: Stat): Stat {
    if st.code == CODE_OK then st.(code := INTERNAL) else st
  }

  /** Serialization of one message type. */
  datatype Codec<!M> = Codec(marshal: M -> Bytes, unmarshal: Bytes -> Option<M>)

  ghost predicate Lawful<M(!new)>(c: Codec<M>) {
    forall m :: c.unmarshal(c.marshal(m)) == Some(m)
  }
}
