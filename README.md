# TPM algorithm-identifier codec

A Dafny model of the algorithm-identifier conversions of the `tss-esapi` crate
(`tss-esapi/src/constants/algorithm.rs`). The crate names 40 TPM algorithms as a
closed Rust enum `Algorithm`. It converts them to and from the 16-bit
`TPM2_ALG_ID` wire codes of the TCG Algorithm Registry. The codes are the
`TPM_ALG_ID` values in section 6.3 of the TPM 2.0 Library Specification, Part 2:
Structures.

- `Tss` (`tss.dfy`) holds the wire type, an unsigned 16-bit `newtype`, and the 40
  `TPM2_ALG_*` constants with their registry values. The crate takes these
  from its `constants::tss` file, which is not modelled; `Tss` restates the
  values.
- `Errors` (`tss.dfy`) holds the crate's `Result` with the one error kind the
  codec produces, `InvalidParam`.
- `Algorithms` (`algorithm.dfy`) holds the enum and the two conversions.
  - `TryFrom` decodes. It is a chain of equality tests in the order of the arms
    of `try_from` in `algorithm.rs`, and it falls through to `Err(InvalidParam)`.
  - `From` encodes. It is a `match` in the order of the arms of `from` in
    `algorithm.rs`.
  - `Registry` is the variant/code correspondence as an unordered set of pairs.
    `Registered` is membership in it.
  - `AllAlgorithms` lists the variants in declaration order.
- `AlgorithmProperties` (`algorithm_properties.dfy`) proves the round trips,
  injectivity, and that decoding succeeds on exactly the 40 encoded codes.
- `ArmOrder` (`arm_order.dfy`) models a match as a first-match chain of arms. It
  proves that any ordering of the registry pairs as arms decodes like `TryFrom`
  and encodes like `From`.

Two behaviours of the crate worth noting:

- The decode error carries only the kind `InvalidParam`, not the rejected code.
- Code 0x0000 is not rejected. It decodes to `Algorithm::Error`.

## Model

| member | source | states |
|---|---|---|
| `Algorithms.TryFrom` | tss-esapi/src/constants/algorithm.rs:65-115 | a decoded variant is the registry's variant for that code; on a failure no variant is registered for that code (the error kind is `InvalidParam`, the only kind the error type holds) |
| `Algorithms.From` | tss-esapi/src/constants/algorithm.rs:117-162 | the function is total, and every variant's code is its registry code |
| `Algorithms.Discriminant` | tss-esapi/src/constants/algorithm.rs:21-63 | each variant has a position below 40 in the declaration, and the declaration holds that variant at that position |
| `AlgorithmProperties.DecodeEncode` | tss-esapi/src/constants/algorithm.rs:68-160 | for every variant `a`, `TryFrom(From(a)) == Ok(a)` |
| `AlgorithmProperties.EncodeDecode` | tss-esapi/src/constants/algorithm.rs:68-160 | if `TryFrom(c) == Ok(a)` then `From(a) == c` |
| `AlgorithmProperties.RegistryIsGraphOfFrom` | tss-esapi/src/constants/algorithm.rs:117-162 | a pair is in the registry exactly when `From` maps its variant to its code |
| `AlgorithmProperties.RegistryIsGraphOfTryFrom` | tss-esapi/src/constants/algorithm.rs:65-115 | a pair is in the registry exactly when `TryFrom` maps its code to its variant |
| `AlgorithmProperties.FromInjective` | tss-esapi/src/constants/algorithm.rs:120-159 | distinct variants have distinct codes; no two variants alias one code |
| `AlgorithmProperties.DecodeSucceedsExactlyOnImage` | tss-esapi/src/constants/algorithm.rs:68-113 | `TryFrom(c)` succeeds exactly when some variant encodes to `c`; otherwise it fails and substitutes no default (the kind is `InvalidParam`, fixed by the error type) |
| `AlgorithmProperties.DiscriminantOfVariantAt` | tss-esapi/src/constants/algorithm.rs:21-63 | distinct declaration positions hold distinct variants |
| `AlgorithmProperties.AllAlgorithmsEnumerates` | tss-esapi/src/constants/algorithm.rs:21-63 | the enum has exactly 40 variants, and the variant list names each one once |
| `AlgorithmProperties.CodesOfCardinality` | tss-esapi/src/constants/algorithm.rs:120-159 | `n` distinct variants encode to `n` distinct codes |
| `AlgorithmProperties.DecodableCodesCount` | tss-esapi/src/constants/algorithm.rs:68-113 | the codes that decode are exactly the codes of the variants, and there are 40 of them |
| `AlgorithmProperties.Sha1IsTheOnlyNameForItsCode` | tss-esapi/src/constants/algorithm.rs:25-26 | `Sha1` is the only variant with code 0x0004; "SHA" is not a second name for it |
| `AlgorithmProperties.WellKnownCodes` | tss-esapi/src/constants/algorithm.rs:82-147 | `Error` ↔ 0x0000, `Null` ↔ 0x0010, `Sha256` ↔ 0x000B and `Rsa` ↔ 0x0001, in both directions |
| `AlgorithmProperties.UnassignedCodesRejected` | tss-esapi/src/constants/algorithm.rs:109-112 | 0x0002, 0x0009, 0x9999 and 0xFFFF decode to `Err(InvalidParam)` |
| `ArmOrder.FirstMatchDecodeSound` | tss-esapi/src/constants/algorithm.rs:68-113 | a first-match chain of registry arms returns `TryFrom`'s answer, or falls through to `InvalidParam` only when no arm has the code |
| `ArmOrder.FirstMatchEncodeSound` | tss-esapi/src/constants/algorithm.rs:119-160 | a first-match chain of registry arms returns `From`'s answer, or falls through only when no arm has the variant |
| `ArmOrder.DecodeIndependentOfArmOrder` | tss-esapi/src/constants/algorithm.rs:68-113 | any ordering of the registry pairs as decode arms gives the same result as `TryFrom` for every code |
| `ArmOrder.EncodeIndependentOfArmOrder` | tss-esapi/src/constants/algorithm.rs:119-160 | any ordering of the registry pairs as encode arms gives `From`'s code for every variant and never falls through |

## Left out

- The `error!` log call on the decode failure path (algorithm.rs:110). It goes to the `log` crate and does not change the returned value.
- The internals of `Error::local_error` and of the crate's error type (algorithm.rs:111). Only the kind `InvalidParam` is modelled.
- The FFI alias `TPM2_ALG_ID` from `tss2_esys` (algorithm.rs:15). It is treated as an unsigned 16-bit integer.
- The derived `Copy`, `Clone`, `Debug`, `PartialEq`, `Eq` and `Hash` traits (algorithm.rs:20). Dafny datatypes have structural equality, and hashing is not modelled.
- `tss-esapi/src/interface_types/mod.rs` only declares submodules and has no logic. The submodules it names are not part of this model.
- The crate's `constants::tss` file is not modelled. Module `Tss` restates its 40 `TPM2_ALG_*` values from the TCG Algorithm Registry.
