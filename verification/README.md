# Verified cores of DGen/SDL

DGen/SDL emulates the Sega Mega Drive. This project models the parts of it that carry the most state and
arithmetic, and proves what they are for. Each module states a reference (a clock-by-clock simulation, a
position-by-position picture, a one-character-at-a-time automaton, a list walk, a trace of what the CPUs ran) and
proves that the code's own loops and in-place updates agree with it, over all inputs and all runs.

| file | what it models |
|---|---|
| `MachineWords.dfy` | bytes and words, and division by hand |
| `PsgVoices.dfy`, `Psg.dfy` | the SN76489 sound chip: the jumping tone and noise loops against a ticking reference, the shift register, the register file, buffers and sample bounds |
| `EnvelopeTables.dfy`, `Envelope.dfy`, `EnvelopeLevels.dfy`, `EnvelopeNotes.dfy` | the YM2612 envelope generator: range invariants over every run, how long each phase can take, the exact level after any number of ticks, and what register writes and key events start |
| `SpriteMask.dfy` | the sprite priority mask, painted by a wandering pointer |
| `SpriteLimits.dfy` | the sprite and dot budget of a line, masking sprites, and the two drawing passes |
| `SpriteOrder.dfy` | the picture that the tile lines of a sprite make up, and which sprite the two passes and the mask together leave on top |
| `TileBlit.dfy` | the fast paths of the transparent tile blitter, and its use behind the priority mask |
| `VdpMemory.dfy`, `VdpDma.dfy`, `VdpCaches.dfy`, `VdpTables.dfy`, `VdpMask.dfy`, `VdpChip.dfy` | video memory, its ports and dirty bits; DMA from the words a program writes to the bytes in VRAM; the palette, sprite-order and sprite-mask caches, and what colours and links a program gets; the chip as an object |
| `Ckvp.dfy`, `CkvpPositions.dfy`, `ConfigFile.dfy`, `ConfigWriter.dfy`, `ConfigRoundTrip.dfy`, `ConfigText.dfy` | the streaming "key = value" parser and the positions it reports, the read loop around it, the escaper and the writer, which settings survive both, and what hand-written files mean |
| `BusArbitration.dfy`, `FrameScheduler.dfy` | the 68000 and the Z80 on their odometers, BUSREQ and RESET, and the slices of a frame |
| `SmdRom.dfy` | decoding Super Magic Drive images in place |
| `JumpTable.dfy` | the compressed opcode table of the Cyclone generator and its decompressor |

Methods follow the code's loops and assignments and are specified by functions on values; the lemmas are about those
functions. Randomness, clocks and the CPU cores are parameters: a core that is given n cycles takes n to n + K - 1
of them and writes to the bus whenever it likes in between.

## What the code does differently from what one would expect

- Bus arbitration. A release of BUSREQ catches the Z80's odometer up with the 68000, but only to the limit of the
  current slice. When the 68000 is past that limit, held cycles stay in front of the odometer and the Z80 may be run
  through them later. `ReleaseIsLateExactlyWhen` gives the exact condition for one release, and
  `ReleasesOfTheFrameAreLate` shows that with the real constants every release is late from about line 13 on.
  `HeldCyclesByTheScripts` and `FrameRunsHeldCyclesWhen` say for whole runs, from the bus writes and the limits alone, when
  held cycles are executed (`Kept`, an equivalence for cores that do not overshoot). `HoldOfTheFrameRunsExactlyWhen` puts
  it in one line for a program that leaves the bus alone afterwards: the hold is executed if and only if it began before
  the last limit of the frame. `HeldCycleRuns` is a program that is caught in the second line of a frame.
- Sprite order. The link of a sprite is not masked, so the walk can leave VRAM for CRAM, whose changes do not make the
  order dirty. `OrderIsSafeExactlyWhen` and `CramWriteGoesUnnoticed` give the exact condition and the failing family,
  `TableIsSafeExactlyWhen` what a program can see to beforehand (register 5 at 0x7c or below), and `StaleOrderIsReachable`
  a run of port writes from power-on that ends there.
- Sprite limits. The scan marks "cut off before entry i" by i - 1, which for the first entry is also the mark of a list
  that was never cut off, so such a list would be drawn whole. `LastDrawn` says so for every list, and `LastDrawnOfOrder`
  proves that it cannot happen to a sprite order, which starts with sprite 0.
- Sprite flips. The horizontal flip is looked up after the tile row has been added, so a row that carries out of the tile
  number changes it (`FlipIsOwnExactlyWhen`).
- Colours. At 24 bits a pixel has its channels in another order than at 15, 16 and 32 bits: green on top, blue in the
  middle, red below (`ColourArrives`).
- Odd VRAM addresses. A word written to one is stored with its bytes swapped, and a read does not swap them back
  (`ReadsBack`). A DMA to one swaps the bytes of every word (`BusDma`).
- Saved settings. A setting survives saving and loading if and only if it is `Storable`: its key is known, not empty and
  without `#`, `;` and `=`, neither part has a NUL, BEL or BS, and both are shorter than 511 characters
  (`SurvivesExactlyWhen`, `SettingSurvivesExactlyWhen`).
- Jump table. The start-up code expands the table over its own handlers and control words. `Compressible` tells from the
  table alone when that works: fewer than 0x1000 handlers, since otherwise the a-line block is written over the handlers
  (`Crowded`); control words that leave room for an end marker; and a table that does not run over control words before
  they are read (`StaysAhead`). `CompressAndDecompress` proves that it then works and otherwise does not, and
  `ManyAreNotCompressible`, `TurnsAreCompressibleExactlyWhen` and `PlainIsNotCompressible` are tables that fail by one
  condition each.
- DMA. After a finished copy the chip still counts as doing DMA, so that data written before the next command is lost
  (`DataAfterCopy`). A fill by a byte write fills every other cell (`FillByteDma`).
- Attack and decay with rate zero never end unless they have nothing left to do (`AttackEndsExactlyWhen`,
  `DecayEndsExactlyWhen`).

## Model

| member | source | states |
|---|---|---|
| PsgVoices.RunSplit | source/sn76496u.c:30-79 | simulating m and then n clocks is simulating m + n, for the state and for the time spent high |
| PsgVoices.RunToEvent | source/sn76496u.c:63-76 | until its counter runs out a voice keeps its level, so jumping to the event is exact |
| PsgVoices.EventCount | source/sn76496u.c:30-79 | conservation: over any window the counter loses exactly the clocks and gains one period per event, and stays positive |
| PsgVoices.ToneParity | source/sn76496u.c:44-53 | a tone that had k events has flipped k mod 2 times |
| PsgVoices.FirstHalfPeriod | source/sn76496u.c:32-33 | what the entry of the tone loop knows about the reference |
| PsgVoices.NextHalfPeriod | source/sn76496u.c:42-53 | one half period of the loop is one half period of the reference, inside the window or past its end |
| PsgVoices.ToneStep | source/sn76496u.c:30-55 | the loop that skips two half periods a round ends with the counter, level and exact high time of the clock-by-clock reference |
| PsgVoices.NextNoiseEvent | source/sn76496u.c:63-78 | one event of the noise loop is the reference up to that event |
| PsgVoices.NoiseStep | source/sn76496u.c:57-79 | the event loop terminates with the counter, register, output and exact high time of the reference |
| PsgVoices.WhiteNoiseIsInjective | source/sn76496u.c:70-71 | the white-noise step can be undone on 16 bits |
| PsgVoices.WhiteNoiseIsSurjective | source/sn76496u.c:70-71 | and reaches every 16-bit value |
| PsgVoices.PeriodicNoiseRotates | source/sn76496u.c:70-71 | the periodic step rotates 15 bits |
| PsgVoices.ShiftKeepsRngOk | source/sn76496u.c:70-71 | a step keeps the register nonzero and within its width |
| PsgVoices.NoiseNeverStops | source/sn76496u.c:57-79 | hence it is never zero after any number of events |
| PsgVoices.PeriodicNoiseReturns | source/sn76496u.c:70-71 | every 15-bit value of the register is back after 15 clocks of periodic noise |
| PsgVoices.PeriodicNoisePeriod | source/sn76496.c:31-42 | from the preset the periodic pattern returns after exactly 15 clocks, not before |
| PsgChip.TwoByteWrite | source/sn76496.c:97-160 | a latch byte and a data byte set all ten bits of a tone register and nothing else |
| PsgChip.TonePeriods | source/sn76496.c:106-117 | a tone write moves its own period and, in noise mode 3, the noise period, and no other |
| PsgChip.NoisePeriods | source/sn76496.c:124-136 | a noise write moves only the noise period, to the clock divided or to twice the period of tone 2 |
| PsgChip.VolumeLevels | source/sn76496.c:118-123 | a volume write moves only its own level, to the table entry of its register |
| PsgChip.SampleBounds | source/sn76496u.c:81-86 | the weighted sum fits 32 unsigned bits and every sample lies in 0..12287 |
| PsgChip.MixOfLevel | source/sn76496u.c:84-86 | a constant level comes out as three eighths of itself, clipped, and more sound is never a smaller sample |
| PsgChip.MutedVoiceNeverToggles | source/sn76496u.c:7-17 | a voice at volume 0 never toggles during a buffer, whatever its period |
| PsgChip.AudibleToneAccounting | source/sn76496u.c:19-55 | over a buffer an audible tone's counter is its start less the time plus k periods, and its level has flipped k mod 2 times |
| PsgChip.VoicesStayOk | source/sn76496u.c:19-93 | counters stay positive and in range, and a noise mode's register nonzero, over any number of samples |
| PsgChip.PeriodsFit | source/sn76496.c:109-130 | every derived period is positive and small enough for the update's arithmetic |
| PsgChip.Psg.SetVolume | source/sn76496.c:207-234 | for any gain, of which the low byte counts, the volume table falls monotonically, is clipped, and ends in silence |
| PsgChip.Psg.Init | source/sn76496.c:254-275 | power-on registers, periods and voices, with everything derived in agreement |
| PsgChip.Psg.Write | source/sn76496.c:88-161 | any byte updates the registers as specified and keeps every period and volume what its registers say; only a noise write presets the shift register and sets its feedback, periodic below 4 in the low three bits and white from there on; a volume byte sets the one level it names to the table entry of its low four bits |
| PsgChip.Psg.SetTone | source/sn76496.c:106-117 | the period assignment shared by both kinds of tone write |
| PsgChip.NoiseModes | source/sn76496.c:127 | with bit 2 of the noise register clear the shift register is back after 15 events; with it set an event is one of white noise, undone by its inverse |
| PsgChip.Psg.SetNoise | source/sn76496.c:124-136 | feedback, period, preset and output of a noise write |
| PsgChip.TonePeriodIs | source/sn76496.c:109-160 | the period of a tone, in the two bytes written for it; zero counts as one |
| PsgChip.NoisePeriodIs | source/sn76496.c:128-130 | the four noise periods: the clock divided by 32, 64 and 128, and twice the period of tone 2 |
| PsgChip.OwnVolume | source/sn76496u.c:81-84 | each voice is weighted by its own volume |
| PsgChip.Psg.HoldMuted | source/sn76496u.c:7-17 | the counters of muted voices, held back |
| PsgChip.Psg.Sample | source/sn76496u.c:19-86 | one sample moves every voice by one step of the reference and mixes the exact high times |
| PsgChip.Psg.Update | source/sn76496u.c:1-94 | a buffer of any length holds, on both sides, the mixes of the reference, and nothing beyond it is touched |
| EnvelopeTables.LiveRates | source/fm.c:282-319 | exactly the rates from 34 up make progress; every offset stays inside the increment table |
| EnvelopeTables.NeverIdleTwice | source/fm.c:208-235 | no two consecutive increments of a live rate are both zero |
| Envelope.AttackArithmetic | source/fm.c:1212-1224 | a nonzero increment strictly lowers the attenuation, a zero one keeps it |
| Envelope.TickKeepsLevel | source/fm.c:1197-1393 | a tick keeps the level in range; attack never gets quieter, sustain and release never louder; each state is left only where it may be |
| Envelope.StepKeepsOk | source/fm.c:1032-1129 | every register write, key event, rate refresh and tick keeps the invariant |
| Envelope.RunKeepsOk | source/fm.c:904-1393 | no run of allowed writes, key events and ticks from a good slot looks beyond the end of a table, and the slot it reaches is good: level in 0..1023, a silent operator at 1023, every cached offset that of its rate |
| Envelope.EveryPrefixIsOk | source/fm.c:904-1393 | so it is after every prefix of the run |
| Envelope.ResetIsOk | source/fm.c:1653-1675 | reset and the writes after it establish the invariant from any slot |
| Envelope.WrapInvisible | source/fm.c:1213-1216 | the wrap of the 32-bit counter cannot be noticed by any rate |
| Envelope.FiresEverySecondTime | source/fm.c:1213-1217 | a live rate acts at least every second time it comes due |
| Envelope.EnoughFirings | source/fm.c:1213-1217 | in 2048 * 2^shift ticks a live rate acts at least 1024 times |
| Envelope.ReleaseEnds | source/fm.c:1353-1372 | a released operator is silent within 2048 * 2^shift ticks, wherever the counter stands |
| Envelope.AttackIsLeftIntoDecay | source/fm.c:1212-1225 | attack is left only into decay, at full volume |
| Envelope.AttackEnds | source/fm.c:1212-1225 | with a nonzero rate it is left within 2048 * 2^shift ticks |
| Envelope.AttackEndsExactlyWhen | source/fm.c:1212-1225 | attack ever ends if and only if its rate is nonzero or the volume is already full |
| Envelope.DecayEndsExactlyWhen | source/fm.c:1227-1248 | decay ever ends if and only if its rate is nonzero or the sustain level is reached; with a rate, within 2048 * 2^shift ticks |
| EnvelopeTables.FourRatesDouble | source/fm.c:208-319 | four rates up adds twice as much in the same time |
| EnvelopeTables.SlowRates | source/fm.c:208-319 | the speeds of the rates up to 40, none of them below 34 |
| EnvelopeTables.FirstRates | source/fm.c:208-319 | the four speeds from rate 40 on are as 4, 5, 6 and 7 |
| EnvelopeTables.LastRates | source/fm.c:208-319 | the speed of the rates from 92 up |
| EnvelopeLevels.EightTurns | source/fm.c:1213-1217 | any eight turns in a row add up to the whole row of the table, wherever they start |
| EnvelopeLevels.GainsInCycle | source/fm.c:1213-1217 | in 0x4000 ticks a rate adds exactly its speed, wherever the counter stands |
| EnvelopeLevels.SustainLevel | source/fm.c:1337-1350 | the exact level after any number of ticks in sustain, which is never left by itself |
| EnvelopeLevels.ReleaseLevel | source/fm.c:1353-1372 | the exact level after any number of ticks of a release |
| EnvelopeLevels.DecayLevel | source/fm.c:1227-1248 | the exact level in decay, and the exact tick at which it turns into sustain and at which level |
| EnvelopeLevels.AttackTickExactly | source/fm.c:1212-1225 | what an attack leaves of the attenuation, in sixteenths, and when it is over |
| EnvelopeNotes.TicksAreRun | source/fm.c:1197-1393 | a run of ticks is what the time bounds are about |
| EnvelopeNotes.ArKsrWrite | source/fm.c:1047-1078 | the attack register sets the attack rate and the key scale and no other rate |
| EnvelopeNotes.DrWrite | source/fm.c:1081-1095 | the decay register sets the first decay rate and nothing else |
| EnvelopeNotes.SrWrite | source/fm.c:1098-1111 | its neighbour sets the second decay rate and nothing else |
| EnvelopeNotes.SlRrWrite | source/fm.c:1114-1130 | the last one sets the sustain level and the release rate and nothing else |
| EnvelopeNotes.TlWrite | source/fm.c:1040-1044 | the level register sets the total level and nothing else |
| EnvelopeNotes.SsgWrite | source/fm.c:2038-2040 | the SSG-EG register, for values that leave it off |
| EnvelopeNotes.ResetIsSilent | source/fm.c:1653-1675 | what reset leaves in every register |
| EnvelopeNotes.KeyScaling | source/fm.c:1559-1605 | the key scale of a note, from the attack register and the note code |
| EnvelopeNotes.KeyPress | source/fm.c:904-930 | a key press starts the attack from wherever the level is, or goes to full volume at once when attack rate and key scale reach 94; with the key down it changes nothing |
| EnvelopeNotes.KeyRelease | source/fm.c:933-942 | a key release keeps the level and starts the release of a sounding operator; with the key up it changes nothing |
| EnvelopeNotes.CsmIsPressAndRelease | source/fm.c:1806-1829 | the CSM pulse is a press and a release of operators that are not keyed on |
| EnvelopeNotes.PressedNoteAttacks | source/fm.c:904-1225 | from a key press: the level never rises until decay at full volume, within 2048 * 2^shift ticks |
| EnvelopeNotes.AttackGains | source/fm.c:1047-1078 | the increments of an attack are those of its rate under key scaling |
| EnvelopeNotes.FastestAttack | source/fm.c:1047-1225 | an attack that gets beyond the rate table is over with the next tick |
| EnvelopeNotes.ReleasedNoteEnds | source/fm.c:933-1372 | from a key release: silence within 2048 * 2^shift ticks |
| EnvelopeNotes.HeldNoteFalls | source/fm.c:1337-1350 | what a held note loses in 0x4000 ticks, from its second decay rate and key scale |
| EnvelopeNotes.ReleasedNoteFalls | source/fm.c:1353-1372 | what a released one loses |
| EnvelopeNotes.DecayingNoteFalls | source/fm.c:1227-1248 | what a decaying one loses, and whether it has reached the sustain level |
| Envelope.Channel.Write | source/fm.c:904-942 | a write or key event changes one operator as specified and keeps the invariant of all four |
| Envelope.Channel.AdvanceEg | source/fm.c:1197-1393 | the do/while over the four slots ticks each of them once |
| SpriteMask.VisibleFits | source/ras.cpp:1036-1045 | a sprite that is not skipped fits the 512x512 area, so the assertions never fire |
| SpriteMask.LineCells | source/ras.cpp:962-1019 | the eight cells of a tile line are exactly the positions of its row and column under the flips |
| SpriteMask.PaintLine | source/ras.cpp:973-998 | paints the opaque dots of one tile line and no other cell |
| SpriteMask.NextWord | source/ras.cpp:999-1019 | the pointer arithmetic between two lines or two tile columns |
| SpriteMask.SpriteMaskAdd | source/ras.cpp:952-1022 | paints exactly the opaque dots of a sprite, under both flips, and stays inside the area |
| SpriteMask.FrontSpriteIsSmallest | source/ras.cpp:1024-1047 | the reference names the smallest list position that shows in a cell, and 0xff exactly if none does |
| SpriteMask.SpriteMaskGenerate | source/ras.cpp:1024-1047 | the mask is a correct depth buffer: every cell holds that position |
| SpriteLimits.EntriesOf | source/ras.cpp:793-835 | the list the limits look at: one entry per position of the sprite order, with the sizes sprites can have |
| SpriteLimits.EntryIsTheSprite | source/ras.cpp:793-835 | the limits and the priority mask decode the same position, size, priority, flips and tile |
| SpriteLimits.WrittenIsLookedUp | source/ras.cpp:793-835 | the eight bytes that a program writes for a sprite are what is looked up, in both interlace modes |
| SpriteLimits.LineBudget | source/ras.cpp:837-950 | the kept prefix has at most 20 (16) sprites on the line and at most 320 (256) dots, exactly that many when the dots run out |
| SpriteLimits.ScanExit | source/ras.cpp:875-949 | leaving the scan at a limit or with a masking sprite found earlier names the first stop of either kind |
| SpriteLimits.LineLimiter.SpriteMaskingOverflow | source/ras.cpp:837-950 | for every list, the scan finds the first stop and records the last entry to draw, the trim, the overflow line and the status bit, and nothing else |
| SpriteLimits.LastDrawnOfOrder | source/ras.cpp:945-949 | for a sprite order the entries up to that last one are exactly the prefix before the first stop, and the one that ran out with it |
| SpriteLimits.SpriteDots | source/ras.cpp:1082-1125 | a sprite draws at most its trimmed width on its lines and nothing elsewhere, exactly it when it is on the screen |
| SpriteLimits.DrawnWithinLimit | source/ras.cpp:1068-1125 | over both priority passes a line draws at most the dot limit |
| SpriteLimits.LineInNumbers | source/ras.cpp:837-1125 | at most 20 sprites and 320 dots of a line in the wide mode, 16 and 256 in the narrow one |
| SpriteLimits.DrawnExactlyLimit | source/ras.cpp:1068-1125 | exactly the limit when the dots ran out and nothing is clipped |
| SpriteLimits.DrawSprites | source/ras.cpp:1068-1125 | a pass draws the kept sprites of its priority, with only the last one trimmed; the list positions whose tile lines they are never increase, and no tile line of any of them is left out |
| SpriteLimits.DrawSprite | source/ras.cpp:1082-1125 | the tile columns of one sprite under both flips |
| SpriteLimits.FlipIsOwnExactlyWhen | source/ras.cpp:1094-1105 | the flip that is drawn is the sprite's own if and only if the row added to the tile number does not carry out of it |
| SpriteLimits.DrawColumns | source/ras.cpp:1104-1124 | the inner loop visits every column once and skips what is off the screen |
| SpriteOrder.ColumnBlitsAre | source/ras.cpp:1104-1124 | the tile lines of a sprite are those of its columns that are on the screen |
| SpriteOrder.Picture | source/ras.cpp:1068-1125 | on every column of the screen the tile lines of a sprite draw a dot exactly where the sprite, as the mask decodes it and shortened by the dot limit, has one |
| SpriteOrder.DotsAreDrawn | source/ras.cpp:184-247 | what the mask takes for a dot is what the blitter draws |
| SpriteOrder.PassShowsFirst | source/ras.cpp:1068-1178 | one pass leaves on top of each column the first kept sprite of its priority that has a dot there and is let through by the mask |
| SpriteOrder.HiddenShowsNothing | source/ras.cpp:1036-1040 | a sprite that the mask leaves out has nothing to show on the display |
| SpriteOrder.MaskIsEnough | source/ras.cpp:1024-1047 | the mask is made of the whole list and the passes draw its kept part; in what the mask decides that makes no difference |
| SpriteOrder.PassesFollowTheList | source/ras.cpp:1024-1178 | the back pass, the mask and the front pass together show in every column of every displayed line the first kept sprite of the list that has a dot there, whatever the priorities |
| TileBlit.ZeroNibbleTrickIsExact | source/ras.cpp:140-143 | the bit trick is true if and only if some nibble is zero |
| TileBlit.DotsAt | source/ras.cpp:140-247 | each dot of the result is the tile's where that is not zero, and the background's elsewhere |
| TileBlit.PathsAgree | source/ras.cpp:184-247 | for a tile line without a zero dot both paths give the same |
| TileBlit.DrawTile | source/ras.cpp:184-247 | whichever path is taken, exactly the nonzero dots are written, under both flips and over any background |
| TileBlit.ShownIsNibble | source/ras.cpp:184-247 | the dots of a loaded line are the nibbles of its bytes, from left to right or, flipped, from right to left |
| TileBlit.DrawMasked | source/ras.cpp:1136-1153 | a tile line of the front pass writes its nonzero dots where the mask does not belong to an earlier sprite, and nothing else |
| TileBlit.DrawSolid | source/ras.cpp:200-224 | the solid path writes all eight dots |
| TileBlit.DrawTransparent | source/ras.cpp:226-246 | the slow path writes the nonzero ones |
| VdpMemory.PokeVramExactly | source/vdp.cpp:102-114 | a VRAM write stores its byte, and sets the page bit and the summary bit exactly when the byte changed, and no other bit |
| VdpMemory.PokeCramExactly | source/vdp.cpp:123-136 | the same for CRAM, down to the byte |
| VdpMemory.PokeVsramExactly | source/vdp.cpp:145-152 | the same for VSRAM, with a summary bit only |
| VdpMemory.WriteRegExactly | source/vdp.cpp:416-432 | the same for registers; the code register is cleared |
| VdpMemory.DoGrows | source/mem.cpp:545-573 | so does every port access, and reset marks everything |
| VdpMemory.RunGrows | source/vdp.cpp:102-432 | over every run of accesses, each changed page, CRAM byte, VSRAM and register has its bits set, and no bit is lost |
| VdpMemory.AimSets | source/vdp.cpp:278-315 | two command words set the whole address and code, whatever was there before |
| VdpMemory.ReadsBack | source/vdp.cpp:160-231 | a word written through the ports is read back from VRAM, CRAM and VSRAM; at odd VRAM addresses with its bytes swapped |
| VdpDma.DmaCopies | source/vdp.cpp:326-333 | a DMA copy into VRAM with increment 2, of any length and to any address: the source bytes in order, round VRAM, the last one sent to a cell stays, and the rest is left alone |
| VdpDma.FillIsConstantCopy | source/vdp.cpp:357-369 | a fill is a copy of a repeated word |
| VdpDma.FillCell | source/vdp.cpp:357-369 | a fill puts the upper byte at the even and the lower byte at the odd addresses |
| VdpDma.CopiesVram | source/vdp.cpp:337-344 | a copy inside VRAM, overlapping or not, for both alignments |
| VdpDma.EvenCopyRepeats | source/vdp.cpp:337-344 | between even addresses the stretch between source and destination is repeated |
| VdpDma.BusDma | source/vdp.cpp:64-350 | from the words written to the ports to the bytes in VRAM: with length bytes lo and hi, source bytes s0 to s2 and a command for address a, the cell at distance o holds the byte o after the source |
| VdpDma.FillDma | source/vdp.cpp:64-378 | the same for a fill: the command arms it, the data write runs it |
| VdpDma.FillByteDma | source/vdp.cpp:64-408 | the same for a fill by a byte write |
| VdpDma.VramDma | source/vdp.cpp:64-350 | the same for a copy inside VRAM, for every length and both alignments |
| VdpDma.VramDmaRepeats | source/vdp.cpp:64-350 | the same in plain terms for an even destination and at most 0x8000 words |
| VdpDma.DataAfterCopy | source/vdp.cpp:357-378 | data written after a finished copy is lost until the next command |
| VdpDma.ByteSent | source/vdp.cpp:194-205 | a byte write goes to the one cell of the memory that the command names |
| VdpTables.ColourArrives | source/ras.cpp:1252-1340 | a colour written through the ports has each channel in its place in the pixel, at every depth |
| VdpTables.LevelsRise | source/ras.cpp:1252-1266 | a channel at 32 bits rises from 0 to 0xff in nearly equal steps |
| VdpTables.LongestList | source/ras.cpp:1350-1365 | at most 80 links are followed in the wide mode and 64 in the narrow one, and that many if none is zero |
| VdpTables.SpritesInARow | source/ras.cpp:1350-1365 | a table at 0x200 times register 5 in which each sprite links to the next gives the order 0, 1, 2 and so on |
| VdpCaches.PixelIsInjective | source/ras.cpp:1252-1340 | at every depth above 8 different colours have different pixel values, and they fit the depth |
| VdpCaches.OrderIsTheWalk | source/ras.cpp:1355-1365 | the order is the one list that starts at sprite 0 and follows the links to the first 0 or the limit, even if they form a cycle |
| VdpCaches.SameReadsSameOrder | source/ras.cpp:1355-1365 | memories that agree where the list was read have the same list |
| VdpCaches.OtherReadOtherOrder | source/ras.cpp:1355-1365 | changing a byte it was read from changes it |
| VdpCaches.TableIsSafeExactlyWhen | source/ras.cpp:1355-1365 | whatever the links are, all of them are read inside VRAM if and only if register 5 is 0x7c or below |
| VdpCaches.CachesStayHonest | source/ras.cpp:1295-1370 | over every run of accesses and drawn lines, clear bits mean that the caches were made from what memory holds |
| VdpCaches.CleanMeansCurrent | source/ras.cpp:1295-1370 | a clear palette bit means the palette of the current CRAM at the depth of the last rebuild; clear sprite bits mean the order of the current VRAM under the limit of the last rebuild, if it was read inside VRAM |
| VdpCaches.OrderIsSafeExactlyWhen | source/ras.cpp:1353-1367 | a clean order survives every change of CRAM and VSRAM if and only if it was read inside VRAM |
| VdpCaches.CramWriteGoesUnnoticed | source/ras.cpp:1353-1367 | a write to a CRAM byte that a link came from leaves the bits clean and the order out of date |
| VdpCaches.StaleOrderIsReachable | source/ras.cpp:1353-1367 | a run from power-on: two registers, a link in VRAM, a drawn line and a colour, after which the order is out of date and not marked |
| VdpCaches.PortsGrow | source/mem.cpp:545-573 | over every run of accesses with no line drawn, whatever changed has been marked |
| VdpMask.GenerateMask | source/ras.cpp:1024-1047 | made from the order of a display, the mask holds in every cell the smallest list position that shows there |
| VdpMask.MaskOfIsRight | source/ras.cpp:1353-1370 | what a rebuild leaves is that mask, under the register 12 of that moment |
| VdpMask.MaskStaysHonest | source/ras.cpp:1353-1370 | over every run of accesses and drawn lines, clean sprite bits mean that the mask is the one of the current VRAM under the register 12 of the last rebuild |
| VdpChip.MdVdp.Reset | source/vdp.cpp:18-43 | the cleared state with everything marked |
| VdpChip.MdVdp.PokeVram | source/vdp.cpp:102-114 | the poke on the chip's fields |
| VdpChip.MdVdp.PokeCram | source/vdp.cpp:123-136 | the poke on the chip's fields |
| VdpChip.MdVdp.PokeVsram | source/vdp.cpp:145-152 | the poke on the chip's fields |
| VdpChip.MdVdp.WriteReg | source/vdp.cpp:416-432 | the register write on the chip's fields |
| VdpChip.MdVdp.PutWord | source/vdp.cpp:160-186 | a word to the memory the code names, with the address stepped by register 15 |
| VdpChip.MdVdp.PutByte | source/vdp.cpp:194-205 | a byte likewise |
| VdpChip.MdVdp.ReadWord | source/vdp.cpp:214-229 | a word from the memory the code names |
| VdpChip.MdVdp.RunDma | source/vdp.cpp:320-345 | the DMA loops write what the copy functions say |
| VdpChip.MdVdp.Command | source/vdp.cpp:278-350 | first and second half of a command, with DMA run at once |
| VdpChip.MdVdp.WriteWord | source/vdp.cpp:357-378 | a data write, or the fill loop |
| VdpChip.MdVdp.WriteByte | source/vdp.cpp:386-408 | a byte write, or the fill loop |
| VdpChip.MdVdp.WriteControl | source/mem.cpp:554-572 | second half, register write or first half, in that order |
| VdpChip.MdVdp.DataWrite | source/mem.cpp:547-553 | the access to the data port on the object; it cancels a half-written command, marks what it changes and keeps the caches honest |
| VdpChip.MdVdp.DataRead | source/mem.cpp:498-503 | a read likewise, with the word of the memory the code names |
| VdpChip.MdVdp.ControlWrite | source/mem.cpp:554-572 | a write to the control port likewise |
| VdpChip.MdVdp.RunSteps | source/ras.cpp:1295-1370 | a whole run on the object is the run of the model: the caches stay honest, and with no line in between every change is marked |
| VdpChip.MdVdp.FillPalette | source/ras.cpp:1298-1344 | the palette loop decodes all of CRAM |
| VdpChip.MdVdp.WalkLinks | source/ras.cpp:1355-1365 | the do/while loop stores the sprite order |
| VdpChip.MdVdp.Refresh | source/ras.cpp:1295-1367 | both caches rebuilt where the bits ask for it, and the bits cleared |
| Ckvp.StepDiscipline | source/ckvp.c:89-292 | every entry of the table: stored characters are bytes, keys end only outside and values only inside a value |
| Ckvp.ScanKeepsEvents | source/ckvp.c:330-384 | parsing a buffer to its first report and going on gives the events of the whole, wherever the cut is |
| Ckvp.EventsAreDisciplined | source/ckvp.c:307-385 | from every state and over every input, keys and values alternate, the buffer holds at most 511 characters, and a clean end leaves no key without a value |
| CkvpPositions.StandsBehind | source/ckvp.c:331-385 | behind every text without a backslash line and column are what counting gives |
| CkvpPositions.EventsOfTheWhole | source/ckvp.c:307-385 | every key, value, piece and error is reported at the line and column of the character that brought it out |
| Ckvp.Parser.Parse | source/ckvp.c:307-385 | one call of the parser is the reference on its buffer: same text, status, line and column, and characters taken |
| Ckvp.Parser.TakeOne | source/ckvp.c:331-382 | the loop body is one step of the automaton |
| Ckvp.Parser.PutChar | source/ckvp.c:359-375 | storing a character never meets a full buffer, so the wrap-around branch is dead |
| ConfigFile.BufferIsTransparent | source/ckvp.c:359-368 | joining the pieces of full-buffer reports gives what an unbounded buffer would deliver |
| ConfigFile.ParseBuffer | source/rc.cpp:1111-1214 | the resume loop handles every event of a buffer once and in order |
| ConfigFile.ParseRc | source/rc.cpp:1091-1218 | events, positions and assignments do not depend on how the file was cut into buffers |
| ConfigFile.ReaderByItems | source/rc.cpp:1114-1211 | what is assigned, read off the unbounded automaton: keys and values of 511 characters or more are dropped |
| ConfigWriter.Measure | source/system.c:1143-1215 | the first pass measures exactly what the second writes and moves an offset with it |
| ConfigWriter.WriteEscaped | source/system.c:1144-1211 | the second pass fills the buffer completely |
| ConfigWriter.Backslashify | source/system.c:1134-1222 | the escaped text, terminated, and the moved offset |
| ConfigWriter.EscapedIsPrint | source/system.c:1145-1203 | escaped text is printable, so it survives as a C string on one line |
| ConfigWriter.FeedEscaped | source/ckvp.c:195-279 | one escaped character is read as one character, in a bare key and inside double quotes |
| ConfigWriter.FeedAll | source/ckvp.c:195-279 | so is a whole escaped string |
| ConfigWriter.LineReads | source/rc.cpp:1221-1309 | a written line is read as one key and one value, and leaves the parser where it began |
| ConfigWriter.DumpReads | source/rc.cpp:1221-1314 | so is a whole file, line by line |
| ConfigWriter.BadKeyIsLost | source/ckvp.c:89-292 | an empty key, or one with '#', ';' or '=', is never read back |
| ConfigWriter.RoundTripExactlyWhen | source/system.c:1134-1222 | a setting is read back as written if and only if its key is not empty and has none of '#', ';' and '=', and neither part has NUL, BEL or BS |
| ConfigWriter.ReportsRoundTripExactlyWhen | source/ckvp.c:307-385 | the same for the pieces the real parser reports, joined, whatever their length |
| ConfigWriter.DumpRc | source/rc.cpp:1221-1314 | the loop that writes the string settings |
| ConfigWriter.SavedSettingsSurvive | source/rc.cpp:1091-1314 | the buffered reader assigns exactly the written fields, in order, when they are storable; SurvivesExactlyWhen has the converse |
| ConfigRoundTrip.DumpGood | source/rc.cpp:1221-1314 | whatever the settings, a written file is read as nothing but good keys and readable text |
| ConfigRoundTrip.SurvivesExactlyWhen | source/rc.cpp:1091-1314 | a whole file of settings is loaded as it was saved if and only if all of them are storable |
| ConfigRoundTrip.SettingSurvivesExactlyWhen | source/rc.cpp:1091-1314 | the same for one setting, with the conditions on its key and value written out |
| ConfigRoundTrip.SaveAndLoad | source/rc.cpp:1091-1314 | the same for every way the file may be cut into buffers |
| ConfigText.CharFeeds | source/ckvp.c:115-279 | a character in any notation, plain, control letter, two hex digits, backslash or joined lines, is read as what it means |
| ConfigText.SingleFeeds | source/ckvp.c:152-156 | between single quotes everything stands for itself |
| ConfigText.WordFeeds | source/ckvp.c:115-279 | a key or value of any pieces is read as their meanings joined |
| ConfigText.NoteReads | source/ckvp.c:94-114 | a comment at the start of a line is skipped |
| ConfigText.ValueEnds | source/ckvp.c:211-291 | a value ends at its space, its line, a semicolon or a comment |
| ConfigText.NoValueEnds | source/ckvp.c:195-210 | a value that is left out before a semicolon or a comment is empty |
| ConfigText.SettingReads | source/ckvp.c:89-292 | a setting with any spacing and quoting is read as its key and its value |
| ConfigText.FileReads | source/ckvp.c:89-292 | a file of comments, blank lines and settings is read as its settings, in order, and nothing else |
| ConfigText.FileMeans | source/rc.cpp:1091-1218 | what such a file assigns: exactly its settings with known keys and parts shorter than 511 characters; a mistake behind them stops the reader there |
| ConfigText.LoadText | source/rc.cpp:1091-1218 | the same through the real parser, for every cutting into buffers |
| ConfigText.NotesChangeNothing | source/ckvp.c:94-114 | comments and blank lines put in anywhere between its lines change nothing |
| ConfigText.UnfinishedNote | source/ckvp.c:110-114 | a file may end within a comment |
| ConfigText.UnfinishedSetting | source/ckvp.c:195-226 | a file may end behind a value without a newline |
| ConfigText.NoKey | source/ckvp.c:94-109 | a line must not begin with a semicolon or an equals sign |
| ConfigText.BrokenKey | source/ckvp.c:115-130 | a semicolon or a hash in a key is an error |
| ConfigText.KeyWithoutEquals | source/ckvp.c:184-194 | behind a key comes the equals sign, or the line is an error |
| ConfigText.SecondEquals | source/ckvp.c:195-226 | so is a second equals sign |
| ConfigText.SecondWord | source/ckvp.c:280-291 | and a second word, but the value has been delivered by then |
| ConfigText.UnfinishedKey | source/ckvp.c:115-130 | a file must not end within a key |
| ConfigText.UnfinishedQuote | source/ckvp.c:152-156 | nor within a quotation |
| ConfigText.BadHex | source/ckvp.c:142-151 | behind a hex escape come two hex digits |
| BusArbitration.DoForward | source/mem.cpp:340-363 | a bus write never moves the Z80's odometer back or K or more past its limit, and accounts for every cycle it moves it |
| BusArbitration.RunReachesLimits | source/mdfr.cpp:557-623 | a slice brings both odometers into [limit, limit + K), and neither goes back |
| BusArbitration.FrameReachesLimits | source/mdfr.cpp:1085-1194 | so does every sequence of slices |
| BusArbitration.SyncCatchesUp | source/mdfr.cpp:832-917 | catching up reaches the 68000's time or the end of the slice, and passes it by no more than the core's overshoot |
| BusArbitration.StoppingCatchesUp | source/mem.cpp:340-363 | taking the bus or entering reset first runs the Z80 up to that moment |
| BusArbitration.StoppedSliceRunsNothing | source/mdfr.cpp:747-829 | a slice in which the Z80 stays stopped executes nothing and still takes its odometer to the limit |
| BusArbitration.DoAccounts | source/mdfr.cpp:626-643 | a bus write that is not a late release keeps every held cycle behind the odometer |
| BusArbitration.LateByTheScripts | source/mdfr.cpp:626-643 | a program that releases the bus within the limits has no late release, and one with no late release keeps to the limits but for the core's overshoot; for a core without overshoot that is an equivalence |
| BusArbitration.NotLateMeansAccounted | source/mdfr.cpp:626-917 | without a late release every held cycle is passed over and none is executed |
| BusArbitration.BusIsRespected | source/mdfr.cpp:626-917 | the simple sufficient condition, for every core: when each release comes before the Z80's limit of its slice, no held cycle is asked of the Z80 core and every one of them lies behind its odometer |
| BusArbitration.InTimeIsKept | source/mdfr.cpp:626-917 | such a program keeps to the exact condition below |
| BusArbitration.ReleaseIsLateExactlyWhen | source/mdfr.cpp:637-643 | a release leaves held cycles in front of the odometer if and only if the 68000 is past the limit of the slice |
| BusArbitration.ExecuteMeetsHeld | source/mdfr.cpp:747-917 | with a held range in front of the odometer, any execution of n cycles is asked for held ones if and only if it goes past the moment the bus was taken |
| BusArbitration.HeldCyclesRunExactlyWhen | source/mdfr.cpp:626-917 | one slice, for every core, every bus write in it and whether or not the Z80 is running: cycles of a hold that is over are asked for if and only if some lie between odometer and limit and the first thing that makes the Z80 catch up finds it running |
| BusArbitration.HoldIsExecuted | source/mdfr.cpp:626-917 | over every run that follows a hold it is executed only if the bus writes and limits catch it, and it is if they catch it with room for the overshoot |
| BusArbitration.HeldCyclesByTheScripts | source/mdfr.cpp:626-917 | over every run of slices and every interleaving of requests, releases and resets: no held cycle is executed if the bus writes and limits keep to the condition, and only if they do up to the overshoot of the cores; an equivalence without overshoot |
| BusArbitration.LateHoldIsExecutedExactlyWhen | source/mdfr.cpp:626-917 | with the bus left alone after a late release the hold is executed if and only if the last limit of the run lies behind its start |
| BusArbitration.LateHoldRuns | source/mdfr.cpp:626-917 | a family of three slices in which that happens, whatever the program does in the third |
| BusArbitration.HeldCycleRuns | source/mdfr.cpp:1100-1113 | with the real constants: a hold of 20 cycles in the second slice of the first line, and then any program |
| BusArbitration.EveryReleaseIsLate | source/md.h:287-310 | with the real constants every release from some line on is late |
| FrameScheduler.FrameBudget | source/mdfr.cpp:1085-1194 | for any positive constants a frame ends with both limits exactly at its lines times the cycles per line, both odometers less than K beyond, and every Z80 cycle executed or passed over |
| FrameScheduler.FrameRespectsBus | source/mdfr.cpp:1035-1194 | the simple sufficient condition for a frame: each release comes before the Z80's limit of its slice |
| FrameScheduler.FrameRunsHeldCyclesWhen | source/mdfr.cpp:1035-1194 | the exact condition for a frame, on its bus writes and limits, up to the overshoot of the cores |
| FrameScheduler.HoldOfTheFrameRunsExactlyWhen | source/mdfr.cpp:1035-1194 | what is left of a hold in a program that then leaves the bus alone is executed if and only if it began before the last Z80 limit of the frame |
| FrameScheduler.FrameRunsHeldCycle | source/mdfr.cpp:1035-1194 | a whole frame of either standard that does |
| FrameScheduler.ReleasesOfTheFrameAreLate | source/mdfr.cpp:1085-1113 | in a frame with the real constants, every release in the visible lines is late from line (185 + K) / 17 on |
| FrameScheduler.MomentsOfTheFrame | source/md.h:287-301 | the limits of both CPUs in cycles: 84 and 39 at the end of the horizontal blank, 112 and 52 where the vertical interrupt is raised, 488 and 227 at the end of a line |
| FrameScheduler.Md.Z80Sync | source/mdfr.cpp:832-917 | the catch-up, clamped to the limit |
| FrameScheduler.Md.Z80Run | source/mdfr.cpp:747-829 | the run, without execution while the bus is held or in reset |
| FrameScheduler.Md.BusreqRequest | source/mdfr.cpp:626-634 | taking the bus |
| FrameScheduler.Md.BusreqCancel | source/mdfr.cpp:637-643 | releasing it |
| FrameScheduler.Md.IoWrite | source/mem.cpp:340-363 | the BUSREQ and RESET cases |
| FrameScheduler.Md.M68kRun | source/mdfr.cpp:557-623 | the 68000 up to its limit, with the bus writes of its core |
| FrameScheduler.Md.RunVblankLine | source/mdfr.cpp:1123-1153 | the three slices of the line in which the vertical blank begins |
| FrameScheduler.Md.OneFrame | source/mdfr.cpp:1035-1194 | the loops of a frame run exactly its slices |
| SmdRom.DecodedPair | source/romload.c:105-110 | where the two bytes of each decoded pair come from |
| SmdRom.DecodeInvertsEncode | source/romload.c:86-112 | decoding undoes interleaving, under any header |
| SmdRom.EncodeInvertsDecode | source/romload.c:86-112 | no two different bodies decode alike |
| SmdRom.DeinterleaveChunk | source/romload.c:101-112 | one chunk, rewritten over the bytes before it without losing an unread byte |
| SmdRom.Deinterleave | source/romload.c:101-112 | all chunks, in place; the last 512 bytes are untouched |
| SmdRom.LoadRom | source/romload.c:77-119 | when an image is accepted as it is, decoded, or rejected, and what it then holds |
| JumpTable.CollectHandlers | source/cyclone/Main.cpp:1141-1156 | every opcode of the table is listed once, at the index recorded for it, and nothing else is: the number of handlers is that of the distinct opcodes and three |
| JumpTable.AlreadyDone | source/cyclone/Main.cpp:1150 | the backwards search |
| JumpTable.PaddingTerminates | source/cyclone/Main.cpp:1190-1202 | the padding ends the stream if and only if there are fewer than 0x400f control words or their number modulo 8 is 1 to 6 |
| JumpTable.RunIsMaximal | source/cyclone/Main.cpp:1177-1178 | a constant run that cannot be extended is the one the word count is about |
| JumpTable.PrintRun | source/cyclone/Main.cpp:1172-1188 | the words of one maximal run, one or two by its length, with the index cut to the twelve bits a word has |
| JumpTable.Compress | source/cyclone/Main.cpp:1171-1203 | the control words are those of the maximal runs in order, and the padding behind them |
| JumpTable.PaddedLength | source/cyclone/Main.cpp:1190-1202 | the control words fill their area, in whole entries |
| JumpTable.ImageHolds | source/cyclone/Main.cpp:1131-1203 | in the printed memory every handler and every control word is where the start-up code looks for it |
| JumpTable.TokenOf | source/cyclone/Main.cpp:271-281 | the words of a run of any length, 15, 16 and beyond included, are read back as that run |
| JumpTable.Decompress | source/cyclone/Main.cpp:263-306 | the start-up code in place: the test for an expanded table, the loop that skips or writes runs, and the exception blocks filled from what stands at their handlers' places |
| JumpTable.Unpacks | source/cyclone/Main.cpp:270-288 | with fewer than 0x1000 handlers the loop leaves exactly the table below the f-line block and the handlers, if it stays ahead of itself and the padding ends it; otherwise it reads something other than control words |
| JumpTable.Crowded | source/cyclone/Main.cpp:1173-1176 | with 0x1000 handlers or more the loop ends with one handler at the places of both exception handlers, or does not end at its marker |
| JumpTable.SecondInit | source/cyclone/Main.cpp:266-268 | every later call leaves a rebuilt table alone |
| JumpTable.CompressAndDecompress | source/cyclone/Main.cpp:1118-1204 | printed and expanded in place, the table is rebuilt in every entry if and only if it is compressible |
| JumpTable.TurnsAreCompressibleExactlyWhen | source/cyclone/Main.cpp:1190-1202 | a family of tables with five handlers, some of which can be compressed and some of which leave no room for an end marker |
| JumpTable.PlainIsNotCompressible | source/cyclone/Main.cpp:270-288 | a table with one opcode that runs over its control words |
| JumpTable.ManyAreNotCompressible | source/cyclone/Main.cpp:1173-1176 | tables with any number of opcodes, of which 0xffd and more are too many |

## Left out

- The CPU cores and Nuked OPN2: only the cycle contract of a core is modelled. The Z80 writing to the 68000's bus
  control is not modelled, and neither are DMA source reads that change something.
- FM operator output, sine, level and frequency tables, and SSG-EG: in its hold mode the level leaves 0..1023.
- YM chip types other than the YM2612: they differ in the attack threshold and the rate table.
- PsgChip.Psg.SetVolume: its gains and levels are real numbers; floating-point rounding is not modelled.
- PsgChip.Psg.Init: the clock division that gives the step is floating point and becomes a parameter, with a bound
  under which 32-bit periods do not overflow. Saving and restoring the chip's state is not modelled.
- PsgChip.Psg.Update: the buffer length is at most 0x3fff frames, the most for which the 32-bit counters of held-back
  voices cannot overflow; one length of buffer is one call, as in the source.
- SpriteMask.SpriteMaskGenerate: non-interlaced mode only, and tile data inside video memory; both are preconditions of
  what the source promises.
- VdpMask.MaskStaysHonest: for a display that is interlaced, or whose sprites or tiles reach out of VRAM, nothing is said.
- SpriteLimits: the collision flag, shadow and highlight are not modelled. The dots drawn equal the limit only for
  sprites not clipped at the screen edge.
- SpriteOrder.PassesFollowTheList: non-interlaced mode, and sprites whose tiles do not run past tile 0x7ff, where the mask
  would read beyond VRAM; the planes that are drawn between the passes are left out.
- TileBlit.DrawTile: the tile word is a parameter (`SpriteOrder.LineAddress` says where it comes from); little-endian
  hosts only; the mixing of the 32-bit routine is left out.
- VdpDma.BusDma: DMA into VRAM with an increment of two, like the other end-to-end theorems; what DMA does with other
  increments and to CRAM and VSRAM is modelled and kept honest (VdpMemory.RunGrows), but not put in closed form.
- CkvpPositions.EventsOfTheWhole: texts without a backslash; the source counts decoded characters, so that an escape is one
  column or even a new line.
- VdpMemory: the signed address register is kept as its 32-bit pattern. Clearing of page, CRAM, VSRAM and register bits
  other than that of register 5 is done nowhere in the source, so there is nothing to model.
- VdpCaches: links read beyond VSRAM, into the dirty bits and further, are read as 0; OrderIsSafeExactlyWhen asks for a
  walk that ends before them. A change of register 12 is not a reason to rebuild in the source, so the theorem names the
  limit of the last rebuild. The big-endian palette is left out, and a change of depth without a palette change keeps
  the old palette, as in the source.
- ConfigFile.ParseRc: a key is looked up in a set of known keys; the case-insensitive comparison, new bindings and what
  the fields' own parsers do with a value are left out. Read errors are left out.
- ConfigWriter.DumpRc: settings whose values are numbers, names or key symbols are written by formats of their own and
  are left out; the C locale decides what is printable.
- BusArbitration.LateByTheScripts: between the two directions there is the core's overshoot, which the 68000's program
  does not know; so it is for HoldIsExecuted, HeldCyclesByTheScripts and FrameRunsHeldCyclesWhen.
- BusArbitration: time spent in RESET is not accounted for when RESET ends, so the theorems are about BUSREQ only. The
  debugger's single steps are left out.
- FrameScheduler.Md.OneFrame: interrupts, timers, joypads, pictures and sound are left out; the order of slices and
  their limits is not.
- SmdRom.LoadRom: retrying with the next file of an archive, and the warning about a corrupt header, are left out.
- JumpTable.CompressAndDecompress: once the start-up code reads an entry that it has already written, which is a piece of a
  code address, or reads behind the image, the model stops; what the source does from there on is not modelled. The
  assembler is taken to keep the low 16 bits of a control word that is too large, and no address to be zero.
- SDL, sound output, input, files, archives, the debugger, save states, Game Genie codes and command lines.
