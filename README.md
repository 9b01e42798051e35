# FastLED noise and show pipeline, modelled in Dafny

This project models two parts of FastLED.

**The fixed-point coherent-noise library** (`src/noise.cpp.hpp`):
- the permutation table and the gradient selectors;
- the 8-bit interpolation;
- the signed and unsigned noise functions in one to four dimensions, and the high-resolution 8-bit wrappers;
- the buffer fills built on them:
  - 1D octave sums;
  - recursive 2D fractal fills;
  - colour fills for LED strips (chunks of 255 LEDs);
  - colour fills for matrices (optionally serpentine, optionally blended).

**The `CFastLED` facade** (`src/FastLED.cpp.hpp`):
- the registry of LED controllers and the refresh-rate floor;
- `addLeds` and the frame counter;
- the three-pass `show` and `showColor` pipeline with its token array, then `clear` and the broadcast setters.

## Modules

| module | file | contents |
|---|---|---|
| `Lib8tion` | `lib8tion.dfy` | fixed-width integer types and wrap functions; `scale8`, `scale16`, `qadd8`, `avg7`, `avg15`, `lerp15by16`; arithmetic lemmas |
| `Noise` | `noise.dfy` | the table `p`, `NOISE_P`, the fade curve, `grad16`/`grad8`, `lerp7by8`, every `inoise*` function and the hires wrappers |
| `Fill1D` | `fill1d.dfy` | `fill_raw_noise8` and `fill_raw_noise16into8`, as in-place array methods proved against reference functions |
| `Grid` | `grid.dfy` | one layer of the 2D fills: the row and column walk, the block writes clipped at the edges, and their exact effect |
| `Fill2D` | `fill2d.dfy` | `fill_raw_2dnoise8`, its default overload, the q44/q88 multipliers and the fold around the midpoint |
| `Fill2D16` | `fill2d16.dfy` | `fill_raw_2dnoise16` |
| `Fill2D16into8` | `fill2d16into8.dfy` | `fill_raw_2dnoise16into8` and its default overload |
| `Colour` | `colour.dfy` | CRGB per channel, `nscale8`, the saturating `+`, `>>= 1`, and the two blends |
| `Strip` | `strip.dfy` | `fill_noise8` and `fill_noise16` |
| `Matrix` | `matrix.dfy` | `fill_2dnoise8` and `fill_2dnoise16` |
| `Engine` | `engine.dfy` | the `CFastLED` facade as the class `FastLed`, with the show pipeline specified as event sequences |

**Integers.** Integers are unbounded in Dafny. The C types `uint8_t` … `int32_t` are subset types, and every C narrowing or wrap-around is written out with an explicit wrap function (`U8`, `I16`, `U32`, …).

**Noise.** The kernel functions take the lookup table as a parameter `p: Table`: any 257-entry table whose last entry repeats the first. The library's own table is the constant `P`, proved to have that shape and to hold a permutation of 0..255 in its first 256 entries. The easing is a parameter too: `Noise.FadeEasing` is the `FADE` curve of the FASTLED_NOISE_FIXED == 0 build, and the `ease8InOutQuad` curve of the FASTLED_NOISE_FIXED == 1 build is defined outside the modelled files. The fills take the noise function as a parameter.

**The facade.**
- Controllers are records.
- The facade records every call it makes on a driver, and every engine event, in a ghost `trace`.
- The clock readings and the tokens that drivers hand back are parameters.

## Model

| member | source | states |
|---|---|---|
| Lib8tion.Avg15 | src/noise.cpp.hpp:64-79 | the average `(i>>1)+(j>>1)+(i&1)` lies between the floor and the ceiling of the mean, so it never overflows |
| Noise.TableShape | src/noise.cpp.hpp:32-49 | the table has 257 entries and entry 256 repeats entry 0 (151) |
| Noise.TablePermutation | src/noise.cpp.hpp:32-49 | entries 0..255 are a permutation of 0..255: no byte appears twice and every byte from 0 to 255 appears |
| Noise.NoiseP | src/noise.cpp.hpp:26 | looking up index 256, which a byte plus one can reach, gives the same byte as index 0, so every lookup stays inside the table |
| Noise.Fade | src/noise.cpp.hpp:96-104 | the fade `scale16(x, x)` never exceeds its argument |
| Noise.FadeFixesZero | src/noise.cpp.hpp:87-93 | the fade easing, used when FASTLED_NOISE_FIXED is 0, maps 0 to 0 at both widths |
| Noise.Grad8XyzWraps | src/noise.cpp.hpp:187-211 | for a hash whose low nibble is 12..15, the 3D 8-bit gradient is the one for nibble 0..3 |
| Noise.Grad16Xyz | src/noise.cpp.hpp:111-140 | definition of grad16(hash, x, y, z): u from {x, y} and v from {y, x, z} by the low hash nibble, each negated by hash bits 0 and 1, averaged with AVG15; its properties are the AtOrigin lemmas below |
| Noise.Grad16Xy | src/noise.cpp.hpp:142-150 | definition of grad16(hash, x, y): hash bit 2 swaps x and y, bits 0 and 1 negate, AVG15 averages |
| Noise.Grad16X | src/noise.cpp.hpp:152-162 | definition of grad16(hash, x): hash > 8 takes (x, x), hash < 4 takes (x, 1), the rest (1, x); bits 0 and 1 negate, AVG15 averages |
| Noise.Grad8Xyz | src/noise.cpp.hpp:187-211 | definition of grad8(hash, x, y, z): the twelve cube-edge cases, nibbles 12..15 repeating 0..3 (Grad8XyzWraps), averaged with avg7 |
| Noise.Grad8Xy | src/noise.cpp.hpp:213-230 | definition of grad8(hash, x, y): hash bit 2 swaps, bits 0 and 1 negate, avg7 averages |
| Noise.Grad8X | src/noise.cpp.hpp:232-253 | definition of grad8(hash, x): bit 3 takes (x, x), else bit 2 takes (1, x), else (x, 1); bits 0 and 1 negate, avg7 averages |
| Noise.Grad16XyzAtOrigin | src/noise.cpp.hpp:111-140 | every 3D 16-bit gradient vanishes at the origin, whatever the hash |
| Noise.Grad16XyAtOrigin | src/noise.cpp.hpp:142-150 | every 2D 16-bit gradient vanishes at the origin |
| Noise.Grad16XAtOrigin | src/noise.cpp.hpp:152-162 | the 1D 16-bit gradient at the origin lies in [-1, 1], since some hashes pair the coordinate with the constant 1 |
| Noise.Grad8XyzAtOrigin | src/noise.cpp.hpp:187-211 | every 3D 8-bit gradient vanishes at the origin |
| Noise.Grad8XyAtOrigin | src/noise.cpp.hpp:213-230 | every 2D 8-bit gradient vanishes at the origin |
| Noise.Grad8XAtOrigin | src/noise.cpp.hpp:232-253 | the 1D 8-bit gradient at the origin lies in [-1, 1] |
| Noise.Lerp7by8 | src/noise.cpp.hpp:278-296 | the result lies between a and b inclusive, so the int8 result never wraps; a zero fraction gives a |
| Noise.Inoise16Raw3D | src/noise.cpp.hpp:298-339 | definition of inoise16_raw(x, y, z): the hashed cube corners, signed fractions taken before easing, seven lerp15by16 steps; its value at lattice points is LatticePoint3D |
| Noise.Inoise16Raw4D | src/noise.cpp.hpp:341-418 | definition of inoise16_raw(x, y, z, t): two 3D time slices (Slice4D) lerped by the eased t fraction, signed fractions taken after easing; LatticePoint4D |
| Noise.Inoise16Raw2D | src/noise.cpp.hpp:452-483 | definition of inoise16_raw(x, y): the hashed square corners and three lerps; LatticePoint2D |
| Noise.Inoise16Raw1D | src/noise.cpp.hpp:500-523 | definition of inoise16_raw(x): two hashed ends and one lerp; LatticePoint1D |
| Noise.Inoise16_4D | src/noise.cpp.hpp:420-434 | definition of inoise16(x, y, z, t): Stretch3D of the raw value (bias 19052, stretch 440, >> 8); Stretch3DExact and LatticeValue4D |
| Noise.Inoise16_3D | src/noise.cpp.hpp:436-450 | definition of inoise16(x, y, z): Stretch3D of the raw value; Stretch3DExact and LatticeValue3D |
| Noise.Inoise16_2D | src/noise.cpp.hpp:485-498 | definition of inoise16(x, y): Stretch2D of the raw value (bias 17308, stretch 484, >> 8); Stretch2DExact and LatticeValue2D |
| Noise.Inoise16_1D | src/noise.cpp.hpp:525-527 | definition of inoise16(x): Stretch1D of the raw value (bias 17308, << 1); Stretch1DExact and LatticeValue1D |
| Noise.Inoise8Raw3D | src/noise.cpp.hpp:529-568 | definition of inoise8_raw(x, y, z) on 8.8 coordinates with grad8 and lerp7by8; LatticePoint8x3D |
| Noise.Inoise8Raw2D | src/noise.cpp.hpp:578-612 | definition of inoise8_raw(x, y); LatticePoint8x2D |
| Noise.Inoise8Raw1D | src/noise.cpp.hpp:623-646 | definition of inoise8_raw(x); LatticePoint8x1D |
| Noise.Inoise8_3D | src/noise.cpp.hpp:570-576 | definition of inoise8(x, y, z): Lift8 of the raw value; LatticeValue8x3D |
| Noise.Inoise8_2D | src/noise.cpp.hpp:614-620 | definition of inoise8(x, y): Lift8 of the raw value; LatticeValue8x2D |
| Noise.Inoise8_1D | src/noise.cpp.hpp:648-653 | definition of inoise8(x): Lift8 of the raw value; LatticeValue8x1D |
| Noise.Inoise8Hires3D | src/noise.cpp.hpp:656-667 | definition of inoise8_hires(x, y, z): the top byte of inoise16 at (x << 8, y << 8, z << 8); HiresSamplesSameCell |
| Noise.Inoise8Hires2D | src/noise.cpp.hpp:669-679 | definition of inoise8_hires(x, y): the top byte of inoise16 at (x << 8, y << 8) |
| Noise.Inoise8Hires1D | src/noise.cpp.hpp:681-690 | definition of inoise8_hires(x): the top byte of inoise16 at x << 8 |
| Noise.Stretch3DExact | src/noise.cpp.hpp:420-450 | the unsigned 3D and 4D mapping, after its 32-bit truncations, is exactly the low 16 bits of `((raw + 19052) * 440) >> 8` |
| Noise.Stretch2DExact | src/noise.cpp.hpp:485-498 | the 2D mapping is exactly the low 16 bits of `((raw + 17308) * 484) >> 8` |
| Noise.Stretch1DExact | src/noise.cpp.hpp:525-527 | the 1D mapping is exactly the low 16 bits of `(raw + 17308) << 1` |
| Noise.StretchLowBits | src/noise.cpp.hpp:420-434 | storing into 32 bits, multiplying with wrap-around, shifting by 8 and keeping 16 bits loses nothing of the exact product's middle bits |
| Noise.Lift8 | src/noise.cpp.hpp:570-576 | for raw noise in [-64, 64], `n += 64; qadd8(n, n)` is `min(255, 2*(raw+64))`; raw 64 wraps to -128 in int8 and is read back as 128; the 2D and 1D `inoise8` at lines 614-620 and 648-653 use the same mapping |
| Noise.MappedCentres | src/noise.cpp.hpp:420-576 | the unsigned values of raw noise 0 (and of ±1 in 1D): 32745 (3D/4D), 32722 (2D), 34614/34616/34618 (1D), 126/128/130 (8-bit) |
| Noise.LatticePoint3D | src/noise.cpp.hpp:298-339 | at a lattice point (all fractions 0), with an easing that fixes 0, raw 3D noise is 0 for any table |
| Noise.LatticeValue3D | src/noise.cpp.hpp:436-450 | there `inoise16(x, y, z)` is 32745 |
| Noise.LatticePoint4D | src/noise.cpp.hpp:341-418 | at a lattice point the raw 4D noise is 0 |
| Noise.LatticeValue4D | src/noise.cpp.hpp:420-434 | there `inoise16(x, y, z, t)` is 32745 |
| Noise.LatticePoint2D | src/noise.cpp.hpp:452-483 | at a lattice point the raw 2D noise is 0 |
| Noise.LatticeValue2D | src/noise.cpp.hpp:485-498 | there `inoise16(x, y)` is 32722 |
| Noise.LatticePoint1D | src/noise.cpp.hpp:500-523 | at a lattice point the raw 1D noise lies in [-1, 1] |
| Noise.LatticeValue1D | src/noise.cpp.hpp:525-527 | there `inoise16(x)` is 34614, 34616 or 34618 |
| Noise.LatticePoint8x3D | src/noise.cpp.hpp:529-568 | at a lattice point the raw 3D 8-bit noise is 0 |
| Noise.LatticeValue8x3D | src/noise.cpp.hpp:570-576 | there `inoise8(x, y, z)` is 128 |
| Noise.LatticePoint8x2D | src/noise.cpp.hpp:578-612 | at a lattice point the raw 2D 8-bit noise is 0 |
| Noise.LatticeValue8x2D | src/noise.cpp.hpp:614-620 | there `inoise8(x, y)` is 128 |
| Noise.LatticePoint8x1D | src/noise.cpp.hpp:623-646 | at a lattice point the raw 1D 8-bit noise lies in [-1, 1] |
| Noise.LatticeValue8x1D | src/noise.cpp.hpp:648-653 | there `inoise8(x)` is 126, 128 or 130 |
| Noise.HiresSamplesSameCell | src/noise.cpp.hpp:656-690 | `x << 8` fits in 32 bits and falls in the 16-bit lattice cell that the 8-bit kernel uses for x, with the byte fraction widened to 16 bits |
| Fill1D.Step8 | src/noise.cpp.hpp:713 | one saturating step `qadd8(old, inoise8(xx, time) >> o)` never lowers the stored byte |
| Fill1D.Octaves8 | src/noise.cpp.hpp:706-717 | the octave loops never lower an entry and leave every index at or past num_points unchanged |
| Fill1D.Octave8Entry | src/noise.cpp.hpp:712-714 | one pass of the inner loop gives point k the step at coordinate xx + (k - i) * scale |
| Fill1D.Octaves8Entry | src/noise.cpp.hpp:709-716 | octaves o and up give point k its reference value, while `_xx` and `scx` track x·2^o and scale·2^o through the doublings |
| Fill1D.RawNoise8Meaning | src/noise.cpp.hpp:706-717 | each of the first num_points entries becomes its reference fractal value FractalPoint8 from its old value, and the rest of the buffer is unchanged |
| Fill1D.NoOctaves | src/noise.cpp.hpp:706-733 | with octaves == 0 both 1D raw fills leave the buffer as it was |
| Fill1D.FillRawNoise8 | src/noise.cpp.hpp:706-717 | the nested loops leave in the array exactly the function RawNoise8 of its old contents |
| Fill1D.Step16into8 | src/noise.cpp.hpp:723-728 | the 16-bit sample, shifted by o, added below the stored byte and capped at 65535, never lowers the byte |
| Fill1D.Octaves16into8 | src/noise.cpp.hpp:719-733 | the octave loops never lower an entry and leave every index at or past num_points unchanged |
| Fill1D.Octave16into8Entry | src/noise.cpp.hpp:722-729 | one inner pass gives point k the step at coordinate xx + (k - i) * scale, modulo 2^32 |
| Fill1D.Octaves16into8Entry | src/noise.cpp.hpp:721-732 | octaves o and up give point k its reference value FractalPoint16into8 |
| Fill1D.RawNoise16into8Meaning | src/noise.cpp.hpp:719-733 | each of the first num_points entries becomes its reference value, and the rest is unchanged |
| Fill1D.FillRawNoise16into8 | src/noise.cpp.hpp:719-733 | the nested loops leave exactly RawNoise16into8 of the old contents |
| Fill1D.Octave16into8Pass | src/noise.cpp.hpp:723-728 | one pass of the inner loop (shift, add under the stored byte, clamp at 65535, store the high byte) leaves exactly Octave16into8 of the contents before the pass |
| Grid.IdxBound | src/noise.cpp.hpp:762 | row-major position `i*width + j` of a grid cell lies inside the width-by-height buffer |
| Grid.BlockExact | src/noise.cpp.hpp:771-777 | the block loop combines the value into exactly the cells of rows i..i+skip-1 and columns j..j+skip-1 clipped at height and width, and nothing else |
| Grid.CellExact | src/noise.cpp.hpp:768-778 | a visited cell updates itself alone when skip == 1 and its clipped block otherwise |
| Grid.LayerFootprint | src/noise.cpp.hpp:761-780 | a layer writes nothing at positions past width*height, nor anything at all when width or height is not positive |
| Grid.RowsLocal | src/noise.cpp.hpp:761-780 | the new contents of a cell depend only on its old contents, never on its neighbours' |
| Grid.LayerOverwrites | src/noise.cpp.hpp:761-780 | a covering layer whose combine ignores the old byte leaves every grid cell the same whatever the buffer held |
| Grid.LayerTiled | src/noise.cpp.hpp:822-854 | when the walk steps by skip, each cell (r, c) is combined exactly once, with the value computed at the corner of its skip-by-skip tile |
| Grid.WriteCell | src/noise.cpp.hpp:768-778 | writing at a visited cell leaves exactly the function Cell of the old contents |
| Fill2D.Fold8 | src/noise.cpp.hpp:766 | the fold about 127 gives at most 128 |
| Fill2D.DoubledFold8Zero | src/noise.cpp.hpp:765-767 | the doubled fold, narrowed to the uint8_t parameter of scale8, is 0 exactly at samples 127 and 255; 255 folds to 128, whose double wraps |
| Fill2D.DoubledFold16Zero | src/noise.cpp.hpp:802-804 | the 16-bit doubled fold is 0 exactly at samples 32767 and 65535 |
| Fill2D.ShiftedFold16Zero | src/noise.cpp.hpp:841-843 | the 16-into-8 fold shifted by 7 is 0 exactly near the midpoint (32640..32894) and at 65535 |
| Fill2D.Walk16Closed | src/noise.cpp.hpp:761-765 | n steps of `+= step` on a uint16_t coordinate are the start plus n·step, wrapped once |
| Fill2D.Walk32Closed | src/noise.cpp.hpp:837-840 | the same for uint32_t coordinates |
| Fill2D.Advance16 | src/noise.cpp.hpp:765 | one `xx += scalex` on a uint16_t coordinate takes the walk from step n to step n + 1 |
| Fill2D16.AdvanceTile32 | src/noise.cpp.hpp:800 | one `xx += scalex` beside `j += skip` takes the uint32_t walk to the next block, and j stays a multiple of skip |
| Fill2D.FillRaw2dNoise8 | src/noise.cpp.hpp:749-781 | the recursion and the loops leave exactly the function Raw2D8 of the old contents |
| Fill2D.DrawLayer8 | src/noise.cpp.hpp:756-780 | the row loop of one layer is the layer function Rows over the old contents |
| Fill2D.DrawRow8 | src/noise.cpp.hpp:762-779 | the column loop of row i is the function Cols |
| Fill2D.FillRaw2dNoise8Defaults | src/noise.cpp.hpp:783-785 | the short overload is the full one with q44(2, 0), amplitude 128, skip 1, and scales narrowed to int16_t |
| Fill2D.Raw2D8Footprint | src/noise.cpp.hpp:749-781 | whatever the octaves and skip, nothing outside the width-by-height grid changes |
| Fill2D.FullAmplitude8 | src/noise.cpp.hpp:753-759 | at amplitude 255, invamp is 0 and a layer ignores the old byte |
| Fill2D.Raw2D8Overwrites | src/noise.cpp.hpp:749-781 | since the lowest octave is drawn at amplitude 255, with skip ≥ 1 every grid cell of the result is independent of the buffer's old contents |
| Fill2D.Raw2D8TopLayer | src/noise.cpp.hpp:749-781 | with skip 1, the last layer cross-fades each cell (r, c) once: `scale8(below, 255-amp) + scale8(2·fold(noise(x + c·scalex, y + r·scaley)), amp)` |
| Fill2D16.Layer16 | src/noise.cpp.hpp:795-815 | a fill_raw_2dnoise16 layer walks both loops by skip, so its blocks tile the buffer |
| Fill2D16.FillRaw2dNoise16 | src/noise.cpp.hpp:787-816 | the recursion and the loops leave exactly Raw2D16 of the old contents |
| Fill2D16.DrawLayer16 | src/noise.cpp.hpp:795-815 | the row loop of one layer is the layer function |
| Fill2D16.Raw2D16Meaning | src/noise.cpp.hpp:787-816 | inside the grid each cell (r, c) ends up with the reference value Point16: octave by octave, cross-fade with the folded sample at the corner of its block |
| Fill2D16.Raw2D16Footprint | src/noise.cpp.hpp:787-816 | nothing outside the grid changes |
| Fill2D16.Point16Independent | src/noise.cpp.hpp:788-793 | the lowest octave's amplitude is 65535, so the result does not depend on the old contents |
| Fill2D16.Point16SingleOctave | src/noise.cpp.hpp:795-815 | with one octave a cell holds `scale16(2·fold(noise(px, py)), 65535)` at its block's corner, px = x + (c / skip)·(scalex·skip) and py likewise, both modulo 2^32 |
| Fill2D16into8.SaturationUnused | src/noise.cpp.hpp:843-850 | `scale8(a, 255-amp) + scale8(m, amp)` never passes 255, so the qadd8 branch and the plain + branch agree |
| Fill2D16into8.FillRaw2dNoise16into8 | src/noise.cpp.hpp:825-856 | the recursion (skip + 1 per level) and the loops leave exactly Raw2D16into8 of the old contents |
| Fill2D16into8.FillRaw2dNoise16into8Defaults | src/noise.cpp.hpp:858-860 | the short overload is the full one with q44(2, 0), amplitude 171, skip 1 |
| Fill2D16into8.DrawLayer16into8 | src/noise.cpp.hpp:833-855 | the row loop of one layer is the layer function |
| Fill2D16into8.Raw2D16into8Meaning | src/noise.cpp.hpp:825-856 | inside the grid each cell ends up with the reference value Point16into8 |
| Fill2D16into8.Raw2D16into8Footprint | src/noise.cpp.hpp:825-856 | nothing outside the grid changes |
| Fill2D16into8.Point16into8Independent | src/noise.cpp.hpp:826-831 | the lowest octave is drawn at amplitude 255, so the result does not depend on the old contents |
| Colour.BlendsAverage | src/noise.cpp.hpp:941-948 | `nscale8(128)` on both colours then `+`, and `>>= 1` on both then `+=`, are both the per-channel average rounded down; the saturating add never clips (under the `v*s >> 8` scale8 of the FASTLED_SCALE8_FIXED == 0 build) |
| Strip.Led8Repeats | src/noise.cpp.hpp:869-885 | as written, LED k shows what one unbroken fill shows at k mod 255, so the strip repeats every 255 LEDs |
| Strip.Led16Repeats | src/noise.cpp.hpp:896-911 | the same for fill_noise16 |
| Strip.Shifted8 | src/noise.cpp.hpp:706-717 | a raw fill started at x + j·scale gives its point i what a fill started at x gives its point j + i |
| Strip.Shifted16 | src/noise.cpp.hpp:719-733 | the same for the 16-into-8 fill, modulo 2^32 |
| Strip.Maps8 | src/noise.cpp.hpp:874-881 | the cleared and filled scratch maps hold the value and hue octave sums of points 0..per-1 |
| Strip.Maps16 | src/noise.cpp.hpp:900-907 | the same with the value map from the 16-into-8 fill |
| Strip.WriteChunk | src/noise.cpp.hpp:883-885 | LEDs j..j+per-1 get `CHSV(H[i] + shift, 255, V[i])` and no other LED changes |
| Strip.FillNoise8 | src/noise.cpp.hpp:862-887 | nothing changes for a non-positive count; otherwise each of the first num_leds LEDs gets its chunk-local colour Led8 and no other LED changes |
| Strip.FillNoise16 | src/noise.cpp.hpp:889-913 | the same with Led16 (16-bit value map, hue shifted modulo 256) |
| Strip.FillNoise8Continuous | src/noise.cpp.hpp:862-887 | corrected: each chunk starts its raw fills at its own offset, so every LED shows the unbroken fill's colour at its own index |
| Strip.FillNoise16Continuous | src/noise.cpp.hpp:889-913 | corrected fill_noise16, the same way |
| Matrix.Serpentine | src/noise.cpp.hpp:936-939 | the serpentine column stays within the row, is its own inverse and is one-to-one |
| Matrix.PixelLands | src/noise.cpp.hpp:929-949 | logical pixel (i, j) appears at `i*width + j`, or at `i*width + (width-1-j)` on an odd row of a serpentine layout |
| Matrix.PaintRow | src/noise.cpp.hpp:933-950 | row i's LED at column c receives pixel (i, Pos(i, c)), painted over what it held; nothing outside the row changes |
| Matrix.PaintMatrix | src/noise.cpp.hpp:929-951 | every LED k of the grid receives Cell(k) painted over its old colour; LEDs past the grid keep theirs |
| Matrix.Fill2dNoise8 | src/noise.cpp.hpp:915-952 | nothing is written for an empty grid; otherwise LED k shows Cell(k) from two default 8-bit maps, hue from the opposite corner, saturation 255, replacing or averaging with the old colour; LEDs past the grid keep theirs |
| Matrix.Fill2dNoise16 | src/noise.cpp.hpp:955-992 | the value map from fill_raw_2dnoise16into8 (q44(2,0), 171, 1), hue shifted by the high byte of hue_shift, saturation 196, the shift-and-add blend |
| Engine.RefreshFloor | src/FastLED.cpp.hpp:361-373 | definition of the new m_nMinMicros after setMaxRefreshRate: constrained, the larger of the old floor and 1000000 / refresh for a positive rate, else unchanged; unconstrained, 1000000 / refresh or 0; RefreshFloorMeaning and FloorIsSlowest |
| Engine.RefreshFloorMeaning | src/FastLED.cpp.hpp:361-373 | the constrained branch never lowers the floor, raises it to at least 1000000/r for r > 0 and ends at the old floor or at that period; the unconstrained branch sets 1000000/r, or 0 for r == 0 |
| Engine.FloorIsSlowest | src/FastLED.cpp.hpp:99-110 | after constrained calls for several controllers, the floor is the longest of their periods (or the old floor): the slowest controller sets the pace |
| Engine.AddLedsForms | src/FastLED.cpp.hpp:102-108 | with a positive second count the first argument is the offset and the reported count is 0; otherwise offset 0 and count = first argument; the reported count equals the driven count exactly in the second case |
| Engine.CountFps | src/FastLED.cpp.hpp:345-359 | definition of countFPS on m_nFPS and its static counters br and lastframe; CountFpsMeaning |
| Engine.CountFpsMeaning | src/FastLED.cpp.hpp:345-359 | the estimate changes only when the counter had reached nFrames; then the counter restarts at 0, the mark moves to now, and the estimate is `(frames+1)*1000 / elapsed` with a zero elapsed time counted as 1 |
| Engine.CountFpsPeriod | src/FastLED.cpp.hpp:349 | from a counter below nFrames, calls only count until the counter reaches nFrames |
| Engine.DitherStep | src/FastLED.cpp.hpp:143 | forcing dither off at one more position changes just that controller |
| Engine.BeginsVisit | src/FastLED.cpp.hpp:133-145 | pass A calls beginShowLeds on exactly the enabled controllers among the first n, once each, in list order |
| Engine.BeginsCarry | src/FastLED.cpp.hpp:136-141 | each begin passes the controller's size and records the token its driver returned |
| Engine.EmitsVisit | src/FastLED.cpp.hpp:147-154 | pass B of show calls showLedsInternal on exactly the enabled controllers, once each, in order |
| Engine.EmitsCarry | src/FastLED.cpp.hpp:148-151 | each emit is at the frame's scale, with the controller's dither mode at that moment |
| Engine.EmitColorsVisit | src/FastLED.cpp.hpp:219-226 | a full pass B of showColor calls showColorInternal on exactly the enabled controllers, in order |
| Engine.EmitColorsCarry | src/FastLED.cpp.hpp:222-224 | each showColorInternal call carries the colour, the scale and the controller's dither mode |
| Engine.EndsMatchBegins | src/FastLED.cpp.hpp:156-164 | if the enabled flags did not change and slot k holds what pass A stored, pass C ends the controllers pass A began, in the same order, each with its own token |
| Engine.VisitsSameEnabled | src/FastLED.cpp.hpp:133-164 | which controllers a pass visits depends on the enabled flags alone |
| Engine.ShowFrame | src/FastLED.cpp.hpp:120-170 | a frame of show is onBeginFrame, all begins, all emits, then the ends handing back pass A's tokens in the same order, then onEndFrame and onEndShowLeds |
| Engine.ShowVisits | src/FastLED.cpp.hpp:133-154 | begins and emits reach exactly the enabled controllers among the first MAX_CLED_CONTROLLERS; each emit is at the scale, with dither 0 when the frame rate forced it |
| Engine.ShowColorBelowMax | src/FastLED.cpp.hpp:207-236 | below MAX_CLED_CONTROLLERS controllers, showColor as written and with the corrected pass B make the same calls |
| Engine.ShowColorAtMax | src/FastLED.cpp.hpp:219-226 | from MAX_CLED_CONTROLLERS controllers on, pass B as written calls showColorInternal on none and leaves every dither mode alone; the corrected pass B reaches exactly the enabled ones among the first MAX_CLED_CONTROLLERS |
| Engine.FastLed.constructor | src/FastLED.cpp.hpp:81-89 | the facade starts with scale 255, no power function, power data 0xFFFFFFFF, floor 0, FPS 0 and an empty registry |
| Engine.FastLed.Register | src/FastLED.cpp.hpp:67-68 | a new controller is appended at the tail; nothing else changes |
| Engine.FastLed.Count | src/FastLED.cpp.hpp:176-184 | the walk returns the length of the registry |
| Engine.FastLed.Get | src/FastLED.cpp.hpp:186-196 | `operator[](x)` returns controller x for 0 ≤ x < count, and the head otherwise (negative x included) |
| Engine.FastLed.Size | src/FastLED.cpp.hpp:91-93 | the LED count of the first controller |
| Engine.FastLed.Leds | src/FastLED.cpp.hpp:95-97 | the LED buffer of the first controller |
| Engine.FastLed.AddLeds | src/FastLED.cpp.hpp:99-110 | the controller gets buffer data + offset and its count; the floor is raised through the constrained branch by its maximum refresh rate; init and onStripAdded are recorded, the latter with the count as written |
| Engine.FastLed.AddLedsReportingCount | src/FastLED.cpp.hpp:99-110 | corrected addLeds: onStripAdded receives the number of LEDs the controller was given |
| Engine.FastLed.SetMaxRefreshRate | src/FastLED.cpp.hpp:361-373 | only m_nMinMicros changes, to RefreshFloor of the old floor |
| Engine.FastLed.CountFPS | src/FastLED.cpp.hpp:345-359 | only the counter state changes, to CountFps of the old state |
| Engine.FastLed.ClearData | src/FastLED.cpp.hpp:248-254 | clearLedDataInternal is called on every controller in order; nothing else changes |
| Engine.FastLed.SetTemperature | src/FastLED.cpp.hpp:270-276 | every controller gets the temperature; nothing else changes |
| Engine.FastLed.SetCorrection | src/FastLED.cpp.hpp:278-284 | every controller gets the correction; nothing else changes |
| Engine.FastLed.SetDither | src/FastLED.cpp.hpp:286-292 | every controller gets the dither mode; nothing else changes |
| Engine.FastLed.AwaitFloor | src/FastLED.cpp.hpp:124 | the busy-wait ends at the first micros() reading at least m_nMinMicros after the previous frame start, modulo 2^32, and all readings before it were still waiting |
| Engine.FastLed.BeginPass | src/FastLED.cpp.hpp:133-145 | pass A visits the first min(count, MAX_CLED_CONTROLLERS) controllers, stores the driver's token in slot k for an enabled controller and null otherwise, and forces dither off below 100 FPS |
| Engine.FastLed.EmitPass | src/FastLED.cpp.hpp:147-154 | pass B appends one emit per enabled visited controller and changes nothing else |
| Engine.FastLed.EndPass | src/FastLED.cpp.hpp:156-164 | pass C appends one end per enabled visited controller, carrying the token in its slot |
| Engine.FastLed.ColorPass | src/FastLED.cpp.hpp:219-226 | showColor's pass B as written: with fewer than MAX_CLED_CONTROLLERS controllers, all of them are dithered (below 100 FPS) and the enabled ones emitted; otherwise nothing happens |
| Engine.FastLed.ApplyPower | src/FastLED.cpp.hpp:127-130 | the scale is replaced by the power function's result when one is installed |
| Engine.FastLed.Show | src/FastLED.cpp.hpp:120-170 | after the wait, lastshow is a reading that ended it; the settings are kept; dither is forced off on the visited controllers below 100 FPS; the counter is stepped with nFrames 25; the trace grows by ShowEvents at the power-scaled scale, with the token array holding pass A's tokens in the visited slots and its old entries in the rest |
| Engine.FastLed.ShowColor | src/FastLED.cpp.hpp:198-239 | showColor as written: the same frame with ColorPassed controllers and ShowColorEvents, and no onBeginFrame or onEndShowLeds |
| Engine.FastLed.ShowColorFixed | src/FastLED.cpp.hpp:198-239 | corrected showColor, whose pass B visits the same controllers as passes A and C |
| Engine.FastLed.Clear | src/FastLED.cpp.hpp:241-246 | with writeData, a showColor of black at scale 0 and then clearData: the trace is ShowColorEvents followed by one clear per controller, the controllers are ColorPassed, the counter is stepped with nFrames 25, lastshow is the reading that ended the wait, the settings are kept and the token array holds pass A's tokens; without writeData, clearData alone, the token array untouched |

## Left out

- Integer widths: `int` is taken as 32 bits and the `FastLED.h` field widths are assumed (m_nFPS 16 bits, m_nMinMicros and m_nPowerData 32 bits). On AVR `int` is 16 bits and MAX_CLED_CONTROLLERS is 8 or 16; the model fixes 64.
- Helper bodies: `scale8`, `scale16`, `qadd8`, `avg7`, `avg15` and `lerp15by16` are defined outside the noise file.
  - They are modelled by their documented formulas (`v*s >> 8` and so on); for `scale8` and `scale16` that is one build only (see the next line).
  - `avg7` and `avg15` follow the inline AVR copy at noise.cpp.hpp:64-79.
  - The AVR assembly itself is not modelled.
- Lib8tion.Scale8: `Scale8` and `Colour.Nscale8` compute `(v*s) >> 8`, and `Scale16` computes `(v*s) >> 16`: the FASTLED_SCALE8_FIXED == 0 build. FastLED's default configuration sets FASTLED_SCALE8_FIXED to 1, which computes `(v*(1+s)) >> 8` (and `>> 16`), and `CRGB::nscale8` follows it. `Colour.BlendsAverage`, and every value the model works out through a scale, hold for the modelled build only. Under the default build, with both colours (255, 255, 255), `nscale8(128)` twice and `+` give 255 where the `>>= 1` blend gives 254.
- Lib8tion.Shr: a shift by 32 or more gives 0. In C the shifts `inoise8(xx,time)>>o` and `inoise16(xx,time)>>o` at noise.cpp.hpp:711 and 723 are undefined once octaves exceeds 32 (o reaches 32); the model gives those octaves the value 0 rather than undefined behaviour.
- Easing: `ease8InOutQuad` and `ease16InOutQuad` are defined in lib8tion, outside the modelled files. The easing is a parameter of every kernel function; only the FADE curve of the FASTLED_NOISE_FIXED == 0 branch is defined in the model, as `Noise.FadeEasing`.
- Compiled-out code: the `FADE_12` curve (`logfade12`, `lerp15by12`) and the `#if 0` grad16 branch are compiled out.
- Fill parameters:
  - The fills take the noise function as a parameter rather than unfolding the kernel.
  - CHSV→CRGB is a parameter (`Colour.Hsv`).
  - The CRGB operators are modelled per channel.
  - `memfill` and `FASTLED_STACK_ARRAY` become freshly allocated zeroed arrays.
- q44/q88 multiplication follows the commented-out `mul44` at noise.cpp.hpp:698-704 (`v*i + (v*f >> 4)`, with `>> 8` for q88), because the q44/q88 operators are defined outside noise.cpp.hpp. `Fill2D.Mul44I32` and `Fill2D.Mul88I32` form the exact product and wrap once to 32 bits; in C the `int32_t` products `v*i` and `v*f` overflow (undefined behaviour) once they reach 2^31, and the two agree only under two's-complement wrap-around. Likewise `xx` at noise.cpp.hpp:710, 723 and 800 is an `int`, which the model walks as a `uint32_t`: the same bits under two's-complement wrap-around.
- Fill requires:
  - The 2D fills require a buffer that holds the width-by-height grid.
  - `fill_raw_2dnoise16` and `fill_raw_2dnoise16into8` require skip ≥ 1, since their loops step by skip and do not end with skip 0.
  - The matrix fills require non-negative width and height; the source's `(size_t)height * width` for a negative dimension is not modelled.
- Fill2D.Raw2D8Overwrites: for fill_raw_2dnoise8 with skip > 1, blocks overlap. The model states this fill's exact result as Raw2D8, its footprint, its independence from old contents and its top layer at skip 1; it gives no per-cell closed form for overlapping blocks.
- The `if (LedsPer <= 0) continue;` in fill_noise8/16 can never run; the chunk loop is modelled without it.
- Busy-wait: the `micros()` busy-wait is a loop over a sequence of clock readings, which `show` requires to contain a reading that ends the wait. The second `micros()` read that sets `lastshow` is taken to be the reading that ended the wait.
- `millis()` is a parameter of `countFPS`; both of its reads are taken as that one value.
- `CFastLED::delay` is left out: it is a wall-clock loop around `show` with `::delay` and `yield`.
- `fl::EngineEvents` hooks and the driver calls (`init`, `beginShowLeds`, `showLedsInternal`, `showColorInternal`, `endShowLeds`, `clearLedDataInternal`) are recorded as trace events. Their effects are not modelled. The tokens drivers return are a parameter.
- `CLEDController`'s constructor, defined outside the modelled files, links a controller into the list. `Engine.FastLed.Register` stands in for it.
- `addLeds` calls `setMaxRefreshRate` on the global `FastLED` object (FastLED.cpp.hpp:107); `Engine.FastLed.AddLeds` calls it on its own facade, so the model takes the facade to be that global instance.
- `src/fl/ptr.h`, `src/platforms/arm/k20/fastpin_arm_k20.h`, `src/fastled_compile.hpp.cpp` and the CI test are not part of this model. They hold declarations, hardware register access and build tooling.
- Unused globals are left out: `nmin`, `nmax`, `pSmartMatrix`, `_frame_cnt`, `_retry_cnt`, `get_brightness`, and the C++ runtime shims.
- The model follows the code in these places:
  - the constrained floor keeps the longest period seen, not the shortest;
  - `countFPS` tests the counter before incrementing it, so it counts nFrames + 1 frames and divides (nFrames + 1)·1000 by the elapsed time;
  - showColor's pass B is not equivalent to show's: see Findings.

## Findings

| source | as written | input that shows it | evidently intended | confidence | as-written member | corrected member |
|---|---|---|---|---|---|---|
| src/noise.cpp.hpp:869-885 | every 255-LED chunk of fill_noise8 restarts both raw fills at the same x | num_leds = 300: LED 255 gets the colour of LED 0 | one unbroken noise pattern along the strip, with each chunk starting at x + j·scale | not executed; medium | Strip.Led8Repeats | Strip.FillNoise8Continuous |
| src/noise.cpp.hpp:896-911 | fill_noise16 restarts each 255-LED chunk at the same x | num_leds = 300: LED 255 gets the colour of LED 0 | one unbroken pattern along the strip | not executed; medium | Strip.Led16Repeats | Strip.FillNoise16Continuous |
| src/FastLED.cpp.hpp:219-226 | showColor's pass B tests the `length` pass A left and never increments it | 64 enabled controllers: no showColorInternal call at all and no dither reset, although passes A and C begin and end all 64 | pass B visits the same controllers as passes A and C | not executed; high | Engine.ShowColorAtMax | Engine.FastLed.ShowColorFixed |
| src/FastLED.cpp.hpp:102-108 | onStripAdded gets `nLedsOrOffset - nOffset` | addLeds(c, data, 10, 50) drives 50 LEDs but reports 0 | report the number of LEDs driven, nLeds | not executed; medium | Engine.AddLedsForms | Engine.FastLed.AddLedsReportingCount |
