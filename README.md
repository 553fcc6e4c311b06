# Zero-runner harness and runtime heap, modelled in Dafny

This project models two small sequential pieces of the zero-runner repository.
The zero runner is an external program that reads a `width × height` frame of
bytes on standard input and must write the same number of zero bytes.

- **The harness's pure checks** (`test_zero_runner.py`).
  - `generate_test_frame` builds an input frame for a pattern tag (`TestFrames`).
  - `verify_all_zeros` classifies the runner's output against the expected frame size (`OutputVerifier`).
- **The runtime support library** (`runtime_init.c`), in module `RuntimeHeap`.
  - The bump allocator `runtime_malloc` over a 64 MiB region, with `initialize_heap` and a `runtime_free` that does nothing.
  - The byte copy `runtime_memcpy`.

Files:

- `wrappers.dfy`: `Option` (Python's `None`, C's `NULL`) and `Result` (a raised `ValueError`).
- `bytes.dfy`: the `byte` type, an integer in 0..255.
- `test_frames.dfy`: frames are flat `seq<byte>` in row-major order.
  - The sample at row `r`, column `c` is at offset `r * width + c`.
  - The tag string becomes a `Pattern` value, with an `Unknown` case for every other string.
- `output_verifier.dfy`: the verdict and its statistics.
  - The statistics are a datatype with one constructor for a size mismatch and one for a full scan.
  - The counts and the `np.where` index list are recursive functions.
  - The zero count is also tied to the multiplicity of 0 in the buffer, an independent definition.
- `runtime_heap.dfy`: the four statics `heap_initialized`, `heap_start`, `heap_size` and `heap_current`.
  - They are the fields of class `Heap`.
  - Each method's new state and result are given by a specification function on a `HeapState` value (`InitializeSpec`, `MallocSpec`).
  - The allocator's invariant and its properties are proved about those functions.
  - `Memcpy` is a loop over `array<byte>`.

Inputs from outside the model are parameters:

- `mmap`'s outcome is an `MmapOutcome` parameter: `Mapped(addr)` or `Failed`.
  - `mmap` returns page-aligned addresses and, with a NULL hint, never maps page 0. Invariant proofs therefore assume `addr` is a non-NULL multiple of 8 (`MappedAligned`).
- The values of the `random`, `gradient` and `noise` frames come from a `samples` function parameter.

## Model

| member | source | states |
|---|---|---|
| `TestFrames.ParsePattern` | test_zero_runner.py:46-63 | The result is `Unknown` exactly when the tag is none of `random`, `gradient`, `noise`, `ones`, `pattern`; an unknown tag is kept as it was given |
| `TestFrames.TagOf` | test_zero_runner.py:36-41 | Each recognised pattern has a recognised tag, and parsing that tag gives the pattern back (round trip with `ParsePattern`) |
| `TestFrames.OnesFrame` | test_zero_runner.py:56-57 | The `ones` frame has `width * height` bytes, every one equal to 255 |
| `TestFrames.CheckerboardFrame` | test_zero_runner.py:58-61 | The `pattern` frame has `width * height` bytes. The cell at (r, c) is 255 when `r % 2 == c % 2` and 0 otherwise |
| `TestFrames.SampledFrame` | test_zero_runner.py:46-55 | The `random`, `gradient` and `noise` frames have exactly `width * height` bytes |
| `TestFrames.GenerateTestFrame` | test_zero_runner.py:46-65 | Success exactly when the tag is recognised and both dimensions are non-negative. An unknown tag raises `UnknownPattern(tag)` whatever the dimensions. A successful frame has `width * height` bytes. `ones` gives all 255 and `pattern` gives the checkerboard |
| `OutputVerifier.ZeroCount` | test_zero_runner.py:116 | The zero count is at most the buffer length and equals the multiplicity of 0 in the buffer |
| `OutputVerifier.NonZeroCount` | test_zero_runner.py:117 | The non-zero count is at most the length, and it is 0 exactly when every byte is zero |
| `OutputVerifier.NonZeroIndices` | test_zero_runner.py:120 | The list holds exactly the positions of the non-zero bytes, strictly increasing |
| `OutputVerifier.CountsPartition` | test_zero_runner.py:116-117 | The zero count plus the non-zero count is the buffer length |
| `OutputVerifier.NonZeroCountIsIndexCount` | test_zero_runner.py:117-120 | The non-zero count is the length of the `np.where` index list |
| `OutputVerifier.FirstNonZero` | test_zero_runner.py:120-121 | None exactly when every byte is zero. Otherwise it is a position whose byte is non-zero and before which every byte is zero |
| `OutputVerifier.VerifyAllZeros` | test_zero_runner.py:94-131 | A size mismatch gives `false` with only the expected and actual sizes. The verdict is true exactly when the sizes agree and every byte is zero. On a size match: `zero + non_zero == total == frame_size`, the verdict holds exactly when `non_zero == 0`, `is_all_zeros` equals it, and the first position is the lowest non-zero index or None |
| `OutputVerifier.AllZeroOutputPasses` | test_zero_runner.py:169-173 | For N zero bytes checked against N: the verdict is true, with `total == zero == N`, no non-zero bytes and no first position |
| `RuntimeHeap.AlignUp` | runtime_init.c:53 | `(n + 7) & ~7` is a multiple of 8 in `[n, n + 8)`, that is, the smallest multiple of 8 that is at least `n` |
| `RuntimeHeap.InitializeSpec` | runtime_init.c:17-32 | Idempotent: an initialised heap is returned unchanged with code 0. Otherwise it succeeds (code 0, initialised, cursor at start) exactly when `mmap` succeeds; on failure the code is -1 and the heap stays uninitialised. Keeps `Valid` |
| `RuntimeHeap.MallocSpec` | runtime_init.c:35-57 | If initialisation fails: NULL, and the heap stays uninitialised. Success exactly when the heap exists and `current + n <= start + size`. A rejection changes nothing beyond initialisation. Success returns the old cursor and advances it by `AlignUp(n)`; start and size never change. Keeps `Valid`, so the heap start is not NULL, `start <= current <= start + size` and `(current - start) % 8 == 0`. Every block is non-NULL, 8-aligned and inside the heap |
| `RuntimeHeap.MallocRunBlocksDisjoint` | runtime_init.c:47-53 | Over any sequence of calls, every returned block is non-NULL, 8-aligned and inside the heap. A later block starts at or after the earlier block's start plus its size rounded up to 8 (the padding of runtime_init.c:53), so no two blocks overlap |
| `RuntimeHeap.Heap.constructor` | runtime_init.c:10-14 | The statics start uninitialised, with NULL start and cursor and size 0 |
| `RuntimeHeap.Heap.InitializeHeap` | runtime_init.c:17-32 | The new fields and return code are `InitializeSpec` of the old fields. `Valid` is kept |
| `RuntimeHeap.Heap.Malloc` | runtime_init.c:35-57 | The new fields and result are `MallocSpec` of the old fields. `Valid` is kept |
| `RuntimeHeap.Heap.Free` | runtime_init.c:59-63 | No allocator state changes |
| `RuntimeHeap.Memcpy` | runtime_init.c:65-74 | `dest[0..n)` holds the old `src[0..n)`. The bytes of `dest` from `n` on are unchanged. `dest` itself is returned. `dest` and `src` may be the same array |

## Left out

- `run_zero_runner` (test_zero_runner.py:67-92): it spawns a subprocess with a 30-second timeout and captures its streams, which is I/O outside a pure model.
- The `TestZeroRunner` scenarios and the module-level tests that run the binary or time it (test_zero_runner.py:138-300, 330-373): subprocess I/O and wall-clock timing.
- The `ZeroRunnerTester` constructor's file-existence check (test_zero_runner.py:22-26): a file-system query.
- The contents of the `random`, `gradient` and `noise` frames (test_zero_runner.py:46-55).
  - They depend on a random generator, Gaussian sampling with float clipping, and numpy `linspace`/`outer` with floating-point rounding and uint8 wrap-around.
  - The model takes the bytes as the `samples` parameter and states only the frame length.
- `generate_test_frame`'s `dtype` parameter and its default `pattern="random"`: only `uint8` is modelled, and the model always takes the tag explicitly, as every call site passes `pattern=`.
- `mmap`, `munmap` and the library destructor (runtime_init.c:21-23, 126-131): operating-system calls. `mmap`'s outcome is an input.
- The mutex around `runtime_malloc` and every pthread, errno and strerror wrapper (runtime_init.c:11, 36, 40, 48, 55, 77-116). These are concurrency or thin foreign wrappers, so the allocator is modelled as sequential.
- The empty library constructor (runtime_init.c:119-123): it does nothing.
- `RuntimeHeap.MallocSpec`: pointer and `size_t` arithmetic is unbounded, so wrap-around of `current + size` near 2^64 (runtime_init.c:47) is not modelled.
- `RuntimeHeap.AlignUp`: it computes `(n + 7) & ~7` arithmetically, as `n + 7` less its remainder modulo 8. This agrees with the bit mask whenever `n + 7` does not overflow 64 bits.
- `RuntimeHeap.Memcpy`: `dest` and `src` are either distinct arrays or the same array. Two regions of one buffer at different offsets are not modelled.
- The contents of heap memory: the allocator never reads or writes them, so only addresses are modelled.
- test_cuda.c: a sequence of CUDA driver calls with debug output, with no logic of its own.
