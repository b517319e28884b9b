# nybble — a verified Dafny model

The `nybble` crate turns a byte buffer into a buffer twice as long. Each byte
becomes two entries, its high nybble and its low nybble, each held in the low
four bits of a byte. The `NybbleOrder` value (`HighFirst` or `LowFirst`) decides
which of the two comes first. `denybblify` reverses the transform. It reads the
buffer two entries at a time and rebuilds one byte per pair.

This project models the whole library (`src/lib.rs`) in one Dafny module,
`Nybble` (`nybble.dfy`):

- Bytes are `bv8`. The masks, shifts and OR of the source keep their `u8`
  meaning: bits shifted past bit 7 are lost, and nothing is masked that the
  source does not mask.
- `Nybblify` and `Denybblify` are methods with loops, as in the source. Each is
  proved equal to a recursive specification function, `Nybblified` and
  `Denybblified`. The lemmas about the buffers are proved on those functions:
  per-position content, the round trip in both directions, the effect of the
  wrong order, and the crate's four test vectors.
- The `assert_eq!` at the start of `denybblify` panics on an odd-length buffer.
  Here it is an explicit `Err(InvalidLength)` result.

## Model

| member | source | states |
|---|---|---|
| `Nybble.OrderLetter` | src/lib.rs:15-23 | the `Display` letter of an order is `h` or `l`, and it is `h` exactly for `HighFirst` |
| `Nybble.HighNybble` | src/lib.rs:26-28 | the high nybble is below 16 and equals the byte divided by 16 |
| `Nybble.LowNybble` | src/lib.rs:31-33 | the low nybble is below 16 and equals the byte modulo 16 |
| `Nybble.NybblesFromByte` | src/lib.rs:37-39 | the pair (high, low) holds two values below 16 with `16*high + low` equal to the byte |
| `Nybble.ByteFromNybbles` | src/lib.rs:43-45 | the low nybble of the result is always the low nybble of `low`; when both arguments are below 16 the result is `16*high + low`, and its high and low nybbles are `high` and `low` |
| `Nybble.ByteFromNybblesOfByte` | src/lib.rs:26-45 | joining a byte's high and low nybble gives the byte back |
| `Nybble.SwappedNybbles` | src/lib.rs:26-45 | joining a byte's nybbles in swapped order gives the byte back exactly when the two nybbles are equal |
| `Nybble.SplitByte` | src/lib.rs:54-61 | one byte contributes two entries below 16: (high, low) for `HighFirst`, (low, high) for `LowFirst` |
| `Nybble.JoinPair` | src/lib.rs:80-86 | a pair of entries below 16, rebuilt into a byte and split again with the same order, gives the same pair |
| `Nybble.JoinSplit` | src/lib.rs:54-61 | rebuilding the pair one byte was split into, with the same order, gives that byte |
| `Nybble.Nybblified` | src/lib.rs:50-65 | the nybblified buffer is exactly twice as long as the input, and every entry is below 16 |
| `Nybble.Denybblified` | src/lib.rs:73-92 | the denybblified buffer is exactly half as long as its even-length input |
| `Nybble.Nybblify` | src/lib.rs:50-65 | the `for` loop that pushes two entries per byte produces the buffer `Nybblified` specifies; the loop keeps the result equal to the specification of the bytes already read |
| `Nybble.Denybblify` | src/lib.rs:70-93 | an odd-length input fails with `InvalidLength` and an even-length one never fails; the `while` loop keeps `offset == 2*index` and the result equal to the specification of the pairs already read, so it returns the buffer `Denybblified` specifies |
| `Nybble.NybblifiedAt` | src/lib.rs:50-65 | entries `2i` and `2i+1` of the nybblified buffer are (high, low) of byte `i` for `HighFirst` and (low, high) for `LowFirst` |
| `Nybble.DenybblifiedAt` | src/lib.rs:73-92 | byte `i` of the result is built from entries `2i` (high) and `2i+1` (low) for `HighFirst`, and from `2i+1` (high) and `2i` (low) for `LowFirst` |
| `Nybble.RoundTrip` | src/lib.rs:50-93 | denybblifying a nybblified buffer with the same order gives back the original buffer, for every buffer and both orders |
| `Nybble.RoundTripFromNybbles` | src/lib.rs:50-93 | every even-length buffer whose entries are all below 16 is the nybblified form of its own denybblified form |
| `Nybble.MismatchAt` | src/lib.rs:50-93 | denybblifying with the other order than the one used to nybblify swaps the two nybbles of every byte |
| `Nybble.OrderMismatch` | src/lib.rs:50-93 | denybblifying with the wrong order gives the original buffer back exactly when every byte has two equal nybbles, so the order cannot be told from the data |
| `Nybble.NybblifyVector` | src/lib.rs:100-104 | `[0x01, 0x23, 0x45]` nybblified high first is `[0, 1, 2, 3, 4, 5]` |
| `Nybble.NybblifyFlippedVector` | src/lib.rs:106-111 | `[0x57, 0x61, 0x76]` nybblified low first is `[7, 5, 1, 6, 6, 7]` |
| `Nybble.DenybblifyVector` | src/lib.rs:113-118 | `[0, 1, 2, 3, 4, 5]` denybblified high first is `[0x01, 0x23, 0x45]` |
| `Nybble.DenybblifyFlippedVector` | src/lib.rs:120-125 | `[7, 5, 1, 6, 6, 7]` denybblified low first is `[0x57, 0x61, 0x76]` |

## Left out

- The command-line program `src/bin/nybblify.rs` is not part of this model. It parses arguments, reads and writes files, prints errors and exits the process. Its one decision picks the order from the first letter of a string (`l` or `h`, anything else is an error), the same letters `OrderLetter` gives.
- The `fmt::Formatter` and `write!` machinery of the `Display` impl: only the order-to-letter mapping is modelled.
- The panic of `denybblify` on odd-length input is an `Err(InvalidLength)` result, not an abort of the program.
- `Vec<u8>` ownership: the source consumes its input and returns a fresh vector, so there is no aliasing; buffers are values (`seq<bv8>`) here.
- `ByteFromNybbles` for arguments of 16 or more: the result is whatever `(high << 4) | low` on `bv8` gives, and no property beyond its low nybble is claimed for such arguments.
