# Debounce step of the keyboard matrix scanner

This project models `scan_loop()` in `Scan/matrix/scan_loop.c`, the main
detection step of a keyboard matrix scanner, together with the global state it
owns:

- `scan_count`, the number of sampling calls since the last assessment;
- `KeyIndex_Array`, the debounce table. It holds one byte per key index, and
  cell 0 is unused. The low seven bits of a cell count the samples in which the
  key read closed. Bit 7 is the "latched pressed" mark that an assessment
  writes;
- `KeyIndex_Buffer` and `KeyIndex_BufferUsed`, the bounded buffer of key
  indices reported as pressed, and the guarded append `bufferAdd`.

Each call either samples or assesses. A sampling call happens while
`scan_count < MAX_SAMPLES` (127). It reads the matrix, advances the counter by
1, or by 2 in dual-pass mode, and returns 0. An assessment call resets the
counter and does not read the matrix. For keys `1..KeyIndex_Size` in ascending
order it masks off bit 7 of each cell. A key whose count is strictly above
`SAMPLE_THRESHOLD` (110) has its index appended to the buffer, which drops it
silently when full, and its cell set to `0x80`. Every other key has its cell
set to `0x00`. The call returns 1.

Layout:

- `debounce_spec.dfy`, module `DebounceSpec`, holds the value-level
  specification. It defines the masked count of a cell, the decision, the table
  after an assessment (`AssessTable`), the keys it reports (`PassingKeys`), the
  guarded append on values (`Add`, `AppendAll`) and the counter's transition
  (`NextCount`, `CountAfter`). It also holds the lemmas about them. Table
  cells are `bv8`, so the mask `& ~(1 << 7)` is written as a bit operation.
  Counters, key indices and buffer entries are the 8-bit number type `uint8`.
- `scan_loop.dfy`, module `ScanLoop`, holds class `Scanner`. Its fields are
  the counter, the table as an `array`, the buffer as an `array` and the used
  length. The header constants `KEYBOARD_SIZE`, `KEYBOARD_BUFFER`,
  `KeyIndex_Size` and `scanMode` are `const` fields set by the constructor,
  because the headers that define them are not part of this model. Each method
  is proved against the spec functions. `Valid()` holds the bounds that every
  call preserves: `KeyIndex_BufferUsed <= KEYBOARD_BUFFER`, and a counter of at
  most 127, or 128 in dual-pass mode.

The external `matrix_scan` is opaque. `ScanLoop` takes a parameter `scanned`,
the table as the raw read leaves it. `MatrixScan` copies it into the table on
sampling calls only. This is the only input from outside.

The code compares the counter with `MAX_SAMPLES` before it reads the matrix
and advances the counter, so an assessment call neither reads the matrix nor
advances the counter; it only resets it to 0.

In dual-pass mode the counter goes from 126 to 128 before the assessment
fires. The comment at Scan/matrix/scan_loop.c:41 says that reaching 128 is
"very bad", yet the code as written does reach it; `WindowThenAssessment`
proves that the counter stands at exactly 128 when the dual-pass assessment
fires.

## Model

| member | source | states |
|---|---|---|
| `DebounceSpec.SampleCount` | Scan/matrix/scan_loop.c:104 | masking with `~(1 << 7)` leaves the cell's value modulo 0x80, i.e. exactly its low seven bits |
| `DebounceSpec.AssessedDecision` | Scan/matrix/scan_loop.c:104-112 | a cell is latched to 0x80 iff its low seven bits exceed 110 and cleared to 0 iff they are at most 110, so 110 is cleared and 111 latched; flipping bit 7 does not change the outcome |
| `DebounceSpec.AssessTableCells` | Scan/matrix/scan_loop.c:104-112 | an assessment sets each key 1..KeyIndex_Size to 0x80 when its masked count is above the threshold and to 0x00 otherwise; it keeps cell 0 and every cell above KeyIndex_Size |
| `DebounceSpec.PassingKeysSpec` | Scan/matrix/scan_loop.c:104-106 | the keys an assessment reports are exactly those in 1..n whose masked count is above 110, each once, in strictly ascending order |
| `DebounceSpec.LatchBitIgnored` | Scan/matrix/scan_loop.c:104-112 | two tables that differ only in bit 7 of their cells are assessed alike: the same cells are written and the same keys are reported |
| `DebounceSpec.NoPassingKeys` | Scan/matrix/scan_loop.c:104-106 | a table whose keys all have a masked count of at most 110 reports no key |
| `DebounceSpec.ReassessmentClears` | Scan/matrix/scan_loop.c:104-112 | a second assessment right after a first clears every key 1..n to 0x00 and reports nothing |
| `DebounceSpec.AppendAllTruncates` | Scan/matrix/scan_loop.c:48-50 | appending a run of keys keeps the old contents as a prefix and adds the first `capacity - used` keys, dropping the rest; the new length is `used + min(keys, room)`, never above the capacity |
| `DebounceSpec.NextCountBounded` | Scan/matrix/scan_loop.c:82-98 | one call, from any counter value, leaves the counter at most 127, or 128 in dual-pass mode |
| `DebounceSpec.CountWithinWindow` | Scan/matrix/scan_loop.c:82-91 | starting from 0, the counter after n sampling calls of one window is n times the step |
| `DebounceSpec.WindowThenAssessment` | Scan/matrix/scan_loop.c:82-98 | starting from 0, exactly 127 calls (64 in dual-pass mode) find the counter below 127 and sample; the next call finds 127 (128 in dual-pass mode), assesses, and leaves 0 |
| `DebounceSpec.CountShift` | Scan/matrix/scan_loop.c:82-98 | a whole window and its assessment return the counter to the value it had before them |
| `DebounceSpec.CountBounded` | Scan/matrix/scan_loop.c:82-98 | however many calls are made from power-up, the counter never exceeds 127, or 128 in dual-pass mode |
| `DebounceSpec.ExampleAssessment` | Scan/matrix/scan_loop.c:104-112 | counts 120, 50, 111 and 0 on four keys report keys 1 and 3 in that order and leave the table as 0x80, 0x00, 0x80, 0x00 |
| `ScanLoop.Scanner.constructor` | Scan/matrix/scan_loop.c:57-66 | at power-up the counter, every table cell and the buffer's used length are 0 |
| `ScanLoop.Scanner.BufferAdd` | Scan/matrix/scan_loop.c:48-50 | the byte is stored at the used length, which grows by one, only while the buffer is not full; a full buffer and its length are left unchanged, and no entry past the used length is touched |
| `ScanLoop.Scanner.MatrixScan` | Scan/matrix/scan_loop.c:84 | the table afterwards is what the external raw read leaves, given as a parameter |
| `ScanLoop.Scanner.AssessKey` | Scan/matrix/scan_loop.c:104-112 | for one key: a masked count above 110 appends the key index through the guarded append and sets the cell to 0x80; any other count sets it to 0x00; no other cell and no entry past the used length changes |
| `ScanLoop.Scanner.Assess` | Scan/matrix/scan_loop.c:100-112 | the table becomes `AssessTable` of the old table; the buffer contents become the old contents followed by the reported keys as the guarded append takes them; entries past the used length are not touched |
| `ScanLoop.Scanner.ScanLoop` | Scan/matrix/scan_loop.c:79-116 | a call with counter below 127 returns 0, advances the counter by the step, replaces the table by the raw read and leaves the buffer and its length unchanged; any other call returns 1, resets the counter to 0, does not read the matrix and performs the assessment; the counter and buffer bounds hold afterwards |

## Left out

- `scan_setup` and `matrix_pinSetup` (Scan/matrix/scan_loop.c:73-76) configure GPIO pins through a routine that is not part of this model.
- The internals of `matrix_scan` are not part of this model. It is treated as an arbitrary rewrite of the table, supplied by the caller, so nothing is assumed about how it increments counts.
- `volatile`, interrupts and the consumer of the buffer are not modelled. That includes the external reset of `KeyIndex_BufferUsed` to 0, so in the model the used length only grows.
- `led.h` and `print.h` are included but not used by this file.
- `ScanLoop.Scanner.constructor`: requires `KeyIndex_Size < 255`. With 255, the `uint8_t` loop index wraps from 255 to 0 and the assessment loop never ends.
- `ScanLoop.Scanner.constructor`: requires `KeyIndex_Size <= KEYBOARD_SIZE`. A larger `KeyIndex_Size` would make the loop at Scan/matrix/scan_loop.c:104 read and write past `KeyIndex_Array[KEYBOARD_SIZE]`.
- `ScanLoop.Scanner.constructor`: requires `KEYBOARD_BUFFER <= 255`. `KeyIndex_BufferUsed` is a `uint8_t`, and a larger capacity would let it wrap to 0.
- `ScanLoop.Scanner.constructor`: the header constants are parameters, not fixed values, so every property is proved for all sizes within these bounds.
