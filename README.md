# fhal-driver: byte-order and arithmetic helpers, and the CAN init-once state machine

This project models two small pieces of the fhal hardware abstraction layer
and proves their properties in Dafny.

- `include/system.h`, helper macros.
  - `swap32` and `swap16` copy the argument into a union of an integer and a
    byte array, exchange the bytes in place with XOR swaps, and read the
    integer back.
  - The big-endian conversions (`cpu_to_be32`, `be32_to_cpu`, `cpu_to_be16`,
    `be16_to_cpu`) are these swaps. The little-endian ones are identities on a value.
  - `BIT`, `BIT64`, `DIV_ROUND_UP`, `MAX` and `MIN` are single expressions.
- `can/can_generic.c`, `can_generic_init`. It refuses a controller that is
  already initialised with `CAN_ALREDY_INITED`. Otherwise it sets the
  controller's `init` flag and returns 0.

Files:

- `byte_order.dfy` (module `ByteOrder`). The byte swaps are methods over a
  4-byte or 2-byte `array<bv8>`; it is the union's `ret8` member. They perform
  the macros' XOR assignments in order, one three-step swap per byte pair
  (`XorSwap`). `Swap32`/`Swap16` are proved equal to the pure reference
  `ByteSwap32`/`ByteSwap16`, which is written with shifts and masks. The
  endian conversions are functions on that reference. Their contracts say
  where the bytes of the value lie in memory.
- `system_arith.dfy` (module `SystemArith`): `BIT`, `BIT64`, `DIV_ROUND_UP`,
  `MAX`, `MIN` as functions, with lemmas relating them to `2^x`, the ceiling
  of a quotient, and the two arguments.
- `can_generic.dfy` (module `CanGeneric`): class `Controller` holds the `init`
  flag of `struct can_generic`. Its method `GenericInit` is `can_generic_init`,
  specified by the pure transition `InitTransition`.

Modelling assumptions:

- The target is little-endian. The header's little-endian conversions are
  identities on a value, which is only right on such a target. So the union's byte array
  holds the least significant byte first (`HostBytes32`, `HostBytes16`).
- `hal_isInit(can)` is a macro whose body is not part of this model. It is
  taken to read the controller's `init` field (`Controller.HalIsInit`).
- The value of `CAN_ALREDY_INITED` is not part of this model either. It is a
  constant of which only "not 0" is known (`CanAlreadyInited`).
- `DIV_ROUND_UP` is a type-generic macro. It is modelled on `uint32_t`
  operands, with the wrap-around of `n + d - 1` written out.
- `BIT` and `BIT64` follow C's arithmetic definition of the left shift.
  For a signed `int` (32 bits) `1 << x` is 2^x when that is representable and
  undefined otherwise. For `unsigned long long` `1ULL << x` is 2^x reduced
  modulo 2^64.
- `MAX` and `MIN` are modelled on mathematical integers. On a tie both
  macros yield `b`. On integers that is the same value as `a`, so the model
  cannot tell the two apart.

## Model

| member | source | states |
|---|---|---|
| `ByteOrder.XorSwap` | include/system.h:155-160 | one three-step XOR sequence on distinct bytes i and j exchanges them and leaves every other byte of the array unchanged |
| `ByteOrder.SwapBytes32InPlace` | include/system.h:153-160 | the six XOR assignments (0 with 3, then 1 with 2) leave the 4-byte array holding the reversal of its old contents |
| `ByteOrder.SwapBytes16InPlace` | include/system.h:171-174 | the three XOR assignments leave the 2-byte array holding its old bytes in reverse order |
| `ByteOrder.Swap32` | include/system.h:150-162 | swap32(d) equals the byte reversal `ByteSwap32(d)`; its memory bytes are those of d in reverse order |
| `ByteOrder.Swap16` | include/system.h:168-176 | swap16(d) equals `ByteSwap16(d)`; its low and high bytes are d's high and low bytes |
| `ByteOrder.HostBytes32` | include/system.h:151-152 | the bytes `tmp.ret8` holds after `tmp.ret = d`, least significant first on the little-endian target; always four of them |
| `ByteOrder.HostValue32` | include/system.h:161 | the value `tmp.ret` reads back when `tmp.ret8` holds the four bytes b, b[0] least significant |
| `ByteOrder.HostBytes16` | include/system.h:169-170 | the bytes `tmp.ret8` holds after `tmp.ret = d` on 16 bits, low byte first; always two of them |
| `ByteOrder.HostValue16` | include/system.h:175 | the 16-bit value `tmp.ret` reads back when `tmp.ret8` holds the two bytes b, b[0] the low byte |
| `ByteOrder.HostViews32` | include/system.h:151-152 | the union's integer view read back into its byte view gives the same four bytes |
| `ByteOrder.HostValueOfBytes32` | include/system.h:151-152 | storing a 32-bit value into the union and reading the integer back gives the value |
| `ByteOrder.HostViews16` | include/system.h:169-170 | the 16-bit union's integer view read back into bytes gives the same two bytes |
| `ByteOrder.HostValueOfBytes16` | include/system.h:169-170 | storing a 16-bit value into the union and reading it back gives the value |
| `ByteOrder.ByteSwap32Reverses` | include/system.h:150-162 | byte i of the swapped value is byte 3 - i of the input, for i in 0..3 |
| `ByteOrder.ByteSwap16Reverses` | include/system.h:168-176 | byte 0 of the swapped value is byte 1 of the input and byte 1 is byte 0 |
| `ByteOrder.ByteSwap32Involution` | include/system.h:150-162 | swapping a 32-bit value twice gives it back |
| `ByteOrder.ByteSwap16Involution` | include/system.h:168-176 | swapping a 16-bit value twice gives it back |
| `ByteOrder.CpuToBe32` | include/system.h:182 | the result lies in memory as the big-endian bytes of d |
| `ByteOrder.Be32ToCpu` | include/system.h:188 | d lies in memory as the big-endian bytes of the result |
| `ByteOrder.CpuToBe16` | include/system.h:194 | the 16-bit result lies in memory as the big-endian bytes of d |
| `ByteOrder.Be16ToCpu` | include/system.h:200 | the 16-bit d lies in memory as the big-endian bytes of the result |
| `ByteOrder.CpuToLe32` | include/system.h:206 | on the little-endian host the unchanged value already lies in memory as the little-endian bytes of d |
| `ByteOrder.Le32ToCpu` | include/system.h:212 | on the little-endian host d lies in memory as the little-endian bytes of the unchanged result |
| `ByteOrder.CpuToLe16` | include/system.h:218 | the 16-bit value lies in memory as its own little-endian bytes |
| `ByteOrder.Le16ToCpu` | include/system.h:224 | the 16-bit d lies in memory as the little-endian bytes of the result |
| `ByteOrder.Be32RoundTrip` | include/system.h:182-188 | be32_to_cpu(cpu_to_be32(d)) == d and cpu_to_be32(be32_to_cpu(d)) == d |
| `ByteOrder.Be16RoundTrip` | include/system.h:194-200 | be16_to_cpu(cpu_to_be16(d)) == d and the converse |
| `ByteOrder.Le32RoundTrip` | include/system.h:206-212 | le32_to_cpu(cpu_to_le32(d)) == d and the converse |
| `ByteOrder.Le16RoundTrip` | include/system.h:218-224 | le16_to_cpu(cpu_to_le16(d)) == d and the converse |
| `SystemArith.Bit` | include/system.h:113 | BIT(x), which is 2^x, is a positive value that fits in a C int |
| `SystemArith.BitDefinedRange` | include/system.h:113 | 2^x fits in a C int exactly when x <= 30, so these are exactly the x for which BIT(x) == 2^x is defined |
| `SystemArith.Bit64` | include/system.h:117 | BIT64(x), for a shift below the width 64, is a nonzero value that fits in 64 unsigned bits |
| `SystemArith.Bit64IsPow2` | include/system.h:117 | BIT64(x) == 2^x for 0 <= x <= 63 |
| `SystemArith.DivRoundUp` | include/system.h:130 | with d > 0, whether or not n + d - 1 wraps around, q = DIV_ROUND_UP(n, d) has q * d < n + d: it never exceeds the ceiling of n / d |
| `SystemArith.DivRoundUpIsCeiling` | include/system.h:130 | with d > 0 and no overflow in n + d - 1, q = DIV_ROUND_UP(n, d) has q * d >= n and (q - 1) * d < n |
| `SystemArith.DivRoundUpIsLeast` | include/system.h:130 | under the same conditions, every k with k * d >= n is at least DIV_ROUND_UP(n, d) |
| `SystemArith.DivRoundUpOnOverflow` | include/system.h:130 | when n + d - 1 overflows uint32_t, DIV_ROUND_UP(n, d) is (n + d - 1 - 2^32) / d, and then q * d < n, so the result is not the ceiling |
| `SystemArith.DivRoundUpWrapsOnOverflow` | include/system.h:130 | an instance of the overflow: DIV_ROUND_UP(0xFFFFFFFF, 2) == 0 |
| `SystemArith.Max` | include/system.h:137 | MAX(a, b) is a or b and is at least both |
| `SystemArith.Min` | include/system.h:144 | MIN(a, b) is a or b and is at most both |
| `SystemArith.MinMaxSplit` | include/system.h:137-144 | MIN(a, b) <= MAX(a, b), and together they are the multiset {a, b} |
| `CanGeneric.CanAlreadyInited` | can/can_generic.c:13 | `CAN_ALREDY_INITED`, the status for a controller initialised already; its value is not part of this model, only that it is a nonzero int32_t |
| `CanGeneric.InitTransition` | can/can_generic.c:10-17 | after the call the controller is initialised; the status is 0 exactly when it was not initialised before, and CAN_ALREDY_INITED otherwise |
| `CanGeneric.Controller.HalIsInit` | can/can_generic.c:12 | `hal_isInit(can)`, whose body is not part of this model, taken to report the controller's `init` flag |
| `CanGeneric.Controller.GenericInit` | can/can_generic.c:10-17 | the new flag and status are InitTransition of the old flag; an initialised controller gets CAN_ALREDY_INITED and is left unchanged; an uninitialised one gets 0 and has `init` set |
| `CanGeneric.InitAtMostOnce` | can/can_generic.c:12-16 | whatever the starting state, a second successive call returns CAN_ALREDY_INITED |
| `CanGeneric.InitTwice` | can/can_generic.c:10-17 | from an uninitialised controller, two successive calls return 0 and then CAN_ALREDY_INITED |

## Left out

- The GCC attribute macros `WEAK`, `ALIAS`, `INTERRUPT`, `SECTION`, `NAKED`, `USED`, `PACKED`, `NO_REORDER` and `ALGIN` (include/system.h:27-105): linker and ABI directives with no behaviour to state.
- `ARRAY_SIZE` (include/system.h:124): a compile-time `sizeof` construct. `NSEC_PER_SEC` (include/system.h:109): a bare constant.
- `ByteOrder.CpuToLe32`, `ByteOrder.Le32ToCpu`, `ByteOrder.CpuToLe16`, `ByteOrder.Le16ToCpu`: these are modelled as identities on a value. The macros (include/system.h:206, 212, 218, 224) expand to their argument without parentheses, while the header's other macros bracket theirs. So a compound argument gets regrouped by the surrounding expression: `cpu_to_le32(a + b) * 2` becomes `a + b * 2`, not `(a + b) * 2`. The model covers only a call on a plain value, or one already in parentheses.
- Big-endian hosts: the model fixes the little-endian layout, which the identity little-endian conversions presuppose.
- `SystemArith.Bit`: shifts of 31 or more are undefined for a signed `int` in C, so the function requires x <= 30 and says nothing about what a compiler makes of `BIT(31)`.
- `SystemArith.DivRoundUp`: only `uint32_t` operands are modelled. C's promotions for narrower or signed operands, and division by zero, are not.
- `SystemArith.Max`, `SystemArith.Min`: the macros evaluate the chosen argument twice, so side effects in arguments are not modelled. Mixed signed/unsigned comparisons are not modelled either.
- `CanGeneric.Controller`: the other fields of `struct can_generic` are not part of this model, and neither is the cast from `struct can *`. "Unchanged" is stated for the `init` flag only.
- `CanGeneric.Controller.GenericInit`: the test `hal_isInit(can)` and the store `can->init = true` (can/can_generic.c:12-15) are taken as one atomic step, with no concurrent callers. The source has no lock between them, so two interleaved calls on one controller could both return 0; the model does not capture that.
- The CAN API declared without bodies in can/can_generic.c:18-30 (`can_init`, `can_deinit`, `can_setCallback`, `can_registerFilter`, `can_deregisterFilter`, `can_send`, `can_recv`, `can_sendISR`, `can_recvISR`, `can_up`, `can_down`): no implementation is part of this model. Their interrupt-context dispatch and RTOS blocking are concurrency and scheduler behaviour.
- include/mcp320x.h: struct declarations and macro-expanded static device tables with no function bodies.
