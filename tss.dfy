/** The crate-level error vocabulary the codec uses. Only the error kind is
    modelled: the codec fails in exactly one way, with `InvalidParam`. */
module Errors {

  /** The wrapper error kinds that the algorithm codec can produce. */
  datatype WrapperErrorKind = InvalidParam

  /** The crate's `Result<T>`: a value, or a local wrapper error of some kind. */
  datatype Result<+T> = Ok(value: T) | Err(error: WrapperErrorKind)

  /** An optional value, used for a match that may fall through. */
  datatype Option<+T> = None | Some(value: T)
}

/** The raw `TPM_ALG_ID` wire codes of the TCG Algorithm Registry, as listed in
    section 6.3 of the TPM 2.0 Library Specification, Part 2: Structures. */
module Tss {

  /** An unsigned 16-bit integer. */
  newtype u16 = x: int | 0 <= x < 0x1_0000

  /** The wire type of an algorithm identifier. */
  type TPM2_ALG_ID = u16

  const TPM2_ALG_ERROR: TPM2_ALG_ID := 0x0000
  const TPM2_ALG_RSA: TPM2_ALG_ID := 0x0001
  const TPM2_ALG_TDES: TPM2_ALG_ID := 0x0003
  const TPM2_ALG_SHA1: TPM2_ALG_ID := 0x0004
  const TPM2_ALG_HMAC: TPM2_ALG_ID := 0x0005
  const TPM2_ALG_AES: TPM2_ALG_ID := 0x0006
  const TPM2_ALG_MGF1: TPM2_ALG_ID := 0x0007
  const TPM2_ALG_KEYEDHASH: TPM2_ALG_ID := 0x0008
  const TPM2_ALG_XOR: TPM2_ALG_ID := 0x000A
  const TPM2_ALG_SHA256: TPM2_ALG_ID := 0x000B
  const TPM2_ALG_SHA384: TPM2_ALG_ID := 0x000C
  const TPM2_ALG_SHA512: TPM2_ALG_ID := 0x000D
  const TPM2_ALG_NULL: TPM2_ALG_ID := 0x0010
  const TPM2_ALG_SM3_256: TPM2_ALG_ID := 0x0012
  const TPM2_ALG_SM4: TPM2_ALG_ID := 0x0013
  const TPM2_ALG_RSASSA: TPM2_ALG_ID := 0x0014
  const TPM2_ALG_RSAES: TPM2_ALG_ID := 0x0015
  const TPM2_ALG_RSAPSS: TPM2_ALG_ID := 0x0016
  const TPM2_ALG_OAEP: TPM2_ALG_ID := 0x0017
  const TPM2_ALG_ECDSA: TPM2_ALG_ID := 0x0018
  const TPM2_ALG_ECDH: TPM2_ALG_ID := 0x0019
  const TPM2_ALG_ECDAA: TPM2_ALG_ID := 0x001A
  const TPM2_ALG_SM2: TPM2_ALG_ID := 0x001B
  const TPM2_ALG_ECSCHNORR: TPM2_ALG_ID := 0x001C
  const TPM2_ALG_ECMQV: TPM2_ALG_ID := 0x001D
  const TPM2_ALG_KDF1_SP800_56A: TPM2_ALG_ID := 0x0020
  const TPM2_ALG_KDF2: TPM2_ALG_ID := 0x0021
  const TPM2_ALG_KDF1_SP800_108: TPM2_ALG_ID := 0x0022
  const TPM2_ALG_ECC: TPM2_ALG_ID := 0x0023
  const TPM2_ALG_SYMCIPHER: TPM2_ALG_ID := 0x0025
  const TPM2_ALG_CAMELLIA: TPM2_ALG_ID := 0x0026
  const TPM2_ALG_SHA3_256: TPM2_ALG_ID := 0x0027
  const TPM2_ALG_SHA3_384: TPM2_ALG_ID := 0x0028
  const TPM2_ALG_SHA3_512: TPM2_ALG_ID := 0x0029
  const TPM2_ALG_CMAC: TPM2_ALG_ID := 0x003F
  const TPM2_ALG_CTR: TPM2_ALG_ID := 0x0040
  const TPM2_ALG_OFB: TPM2_ALG_ID := 0x0041
  const TPM2_ALG_CBC: TPM2_ALG_ID := 0x0042
  const TPM2_ALG_CFB: TPM2_ALG_ID := 0x0043
  const TPM2_ALG_ECB: TPM2_ALG_ID := 0x0044
}
