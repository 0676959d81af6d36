/** Small datatypes shared by the other modules. */
module Common {

  datatype Option<+T> = None | Some(value: T)

  datatype Result<+T, +E> = Ok(value: T) | Err(error: E)

  /** An IPv4 address by its octets, an IPv6 address as one number. */
  datatype Ip = V4(a: nat, b: nat, c: nat, d: nat) | V6(v: nat)
}
