# highz-filterbank acquisition and calibration core, in Dafny

This project models the sequential logic of the highz-filterbank instrument software.

Three Raspberry-Pi C programs drive a local oscillator (LO), read three 7-channel AD HATs and save their sweeps as FITS binary tables:
- the continuous-sweep acquisition program `ADHAT_c_subroutine_NO_SOCKET.c`;
- the filter calibration sweep `filterSweep.c`;
- the older double-buffered calibration program `calibCode_v2.c`.

Two Python helpers turn the saved codes into volts, calibration curves and dBm:
- `calibration_utils.py`;
- `FilterResponsePlots.py`.

Two pairs of source files are byte-identical: the two copies of the acquisition program, and the two copies of `calibCode_v2.c`. One model serves each pair. The tables below cite one copy of each.

Frequencies are exact integers in tenths of a MHz. For example, 648.0 MHz is 6480 and 0.2 MHz is 2. The C constants are exact in that unit, so each LO is an integer state machine. Python floats are exact `real`s. Python exceptions and C NULL returns become `Result` and `Option` values.

Hardware readings, timestamps, malloc outcomes, cfitsio statuses and the moment a signal handler sets `exit_flag` are all parameters.

The modules follow the programs:
- `CText`: C strings in fixed `char[]` buffers, `strncpy`, `snprintf`, the decimal conversions `%d`, `%+d`, `%f` and `%.1f`, and `atoi`.
- `Records`: the `GetAllValues` row, the `FITS_DATA` buffer, and `MAKE_DATA_ARRAY` / `FREE_DATA_ARRAY` over an allocator whose `live` set tracks the blocks.
- `Columns`: `SAVE_OUTPUT`'s column packing (FITS Standard 4.0, section 7.3, TFORM `7K` and `15A`), its status order and its output path.
- `Handoff`: the double-buffer bookkeeping shared by the acquisition program and `calibCode_v2.c`. It holds `row_index`, `current_buffer`, the `buffer_to_write` marker and the writer's take step. Each producer iteration and each take is one atomic step.
- `Acquisition`: the continuous program. It covers its LO, the switch-state decoder, the exit counter, `GET_DATA`, `GET_FREQUENCIES`, `main`'s argument checks, start-up, producer loop and shutdown, and `SAVE_OUTPUT`.
- `FilterSweep`: the two-pass calibration sweep at +5 dBm and -4 dBm.
- `CalibV2`: the older calibration program, its saturating LO and its loop that cannot end.
- `CalibrationUtils` and `FilterResponse`: the Python helpers.

These behaviours of the programs are proved:
- Every timestamp reaches the table cut to its first 14 characters, so the last digit of the seconds is lost (`Columns.TimestampCell`).
- The writer leaves its loop on `exit_flag` without saving a buffer that is still marked (`Handoff.Decide`, `Acquisition.Shutdown`).
- A marker the writer has not taken when the next buffer fills is overwritten, so that sweep is never saved (`Handoff.PendingOverwritten`).
- The exit counter of the acquisition program is never reset. It counts every iteration with state 0 at 848 MHz, not consecutive ones. Such iterations come at most once every 100 calls, so the process exits after at least 400 calls (`Acquisition.HitsBound`, `Acquisition.Produce`).

## Model

| member | source | states |
|---|---|---|
| CText.CStr | data_aquisition/ADHAT_c_subroutine_NO_SOCKET.c:345-355 | the string a `char[]` holds is a NUL-free prefix of it, followed by a NUL unless it fills the buffer |
| CText.CStrUnique | data_aquisition/ADHAT_c_subroutine_NO_SOCKET.c:345-355 | a NUL-free prefix that ends at a NUL (or fills the buffer) is the held string |
| CText.StrNCpyTerminated | data_aquisition/ADHAT_c_subroutine_NO_SOCKET.c:345-346 | `strncpy(dst, src, n); dst[size-1] = '\0'` with n = size or size-1 leaves the first size-1 characters of src, then NULs, whatever dst held |
| CText.CStrFixed | data_aquisition/ADHAT_c_subroutine_NO_SOCKET.c:345-346 | such a field holds src's string truncated to size-1 characters |
| CText.FixedText | data_aquisition/ADHAT_c_subroutine_NO_SOCKET.c:348-349 | a NUL-free text shorter than the field is kept whole |
| CText.CStrSnPrintf | data_aquisition/ADHAT_c_subroutine_NO_SOCKET.c:351 | `snprintf(dst, n, ...)` leaves the first min(len, n-1) characters of the text as the held string |
| CText.DecimalRoundTrip | data_aquisition/ADHAT_c_subroutine_NO_SOCKET.c:336 | the digits `%d` writes for n are worth n |
| CText.TenthsText | data_aquisition/ADHAT_c_subroutine_NO_SOCKET.c:351 | `%.Nf` of a whole number of tenths holds no NUL; it is as long as the integer part's digits plus a point and N decimals |
| CText.FixedValue | src/calibration/filterSweep.c:132 | the `%.Nf` text of q + r/10 is worth exactly q + r/10 |
| CText.PlusSignedWidth | src/calibration/filterSweep.c:128 | `%+d` of any 32-bit int takes at most 11 characters |
| CText.AtoiSigned | data_aquisition/ADHAT_c_subroutine_NO_SOCKET.c:654 | `atoi` reads back every value `%d` writes |
| CText.AtoiPlusSigned | src/calibration/filterSweep.c:128 | `atoi` reads back every value `%+d` writes |
| CText.AtoiNoDigits | data_aquisition/ADHAT_c_subroutine_NO_SOCKET.c:654-672 | a text with no digit reads as 0 |
| Records.ZeroRecord | data_aquisition/ADHAT_c_subroutine_NO_SOCKET.c:234 | the memset row has the struct's shape: 7 codes per HAT, 32-byte fields |
| Records.FrequencyText | data_aquisition/ADHAT_c_subroutine_NO_SOCKET.c:351 | `%f` or `%.1f` of an LO below 1000 MHz fits the 32-byte FREQUENCY field whole |
| Records.Allocator.MakeDataArray | data_aquisition/ADHAT_c_subroutine_NO_SOCKET.c:220-238 | n zeroed rows with nrows = n, or NULL with no block left allocated when either malloc fails |
| Records.Allocator.FreeDataArray | data_aquisition/ADHAT_c_subroutine_NO_SOCKET.c:240-246 | rows and header are freed and the caller's pointer becomes NULL; NULL is a no-op |
| Records.FreeTwice | data_aquisition/ADHAT_c_subroutine_NO_SOCKET.c:240-246 | a second `FREE_DATA_ARRAY` on the NULL the first one left frees nothing more |
| Columns.SlotContents | data_aquisition/ADHAT_c_subroutine_NO_SOCKET.c:448-465 | a `15A` cell holds the first min(len, 14) characters of the field and NULs after them; the space fill never survives |
| Columns.MemsetAt | data_aquisition/ADHAT_c_subroutine_NO_SOCKET.c:449 | `memset` sets exactly the n bytes from the offset |
| Columns.StrNCpyAt | data_aquisition/ADHAT_c_subroutine_NO_SOCKET.c:454 | `strncpy` into a cell writes the source string then NULs, exactly n bytes |
| Columns.PackSlot | data_aquisition/ADHAT_c_subroutine_NO_SOCKET.c:449-455 | memset, strncpy and the forced NUL make cell i equal `Slot(field)` and change nothing else |
| Columns.PackText | data_aquisition/ADHAT_c_subroutine_NO_SOCKET.c:448-465 | byte i*15+j of a text column is byte j of row i's cell |
| Columns.PackNumeric | data_aquisition/ADHAT_c_subroutine_NO_SOCKET.c:438-444 | entry i*7+j of column k is channel j of row i's ADHAT_k |
| Columns.FirstFailure | data_aquisition/ADHAT_c_subroutine_NO_SOCKET.c:478-506 | 0 exactly when all seven column writes succeed, otherwise one of their statuses |
| Columns.SaveStatus | data_aquisition/ADHAT_c_subroutine_NO_SOCKET.c:386-539 | -1 exactly for a failed column allocation after create and table succeed; 0 exactly when every call succeeds (the close only where it is checked); otherwise a failing library status |
| Columns.WriteTable | data_aquisition/ADHAT_c_subroutine_NO_SOCKET.c:386-539 | the status above, and a packed table of the first nrows rows exactly when create, table and the column allocations succeed |
| Columns.TableHolds | data_aquisition/ADHAT_c_subroutine_NO_SOCKET.c:438-465 | columns packed row by row hold the rows |
| Columns.CloseIgnored | calibration/calibCode_v2.c:302-314 | where the close is not checked, a failing close gives the status of a clean one |
| Columns.SnPrintfTextValue | data_aquisition/ADHAT_c_subroutine_NO_SOCKET.c:385 | `snprintf` of a NUL-free text into cap bytes keeps its first cap-1 characters |
| Columns.FirstNameValue | data_aquisition/ADHAT_c_subroutine_NO_SOCKET.c:381-383 | the name copied from row 0 is its FILENAME string cut to 31 characters |
| Columns.DirPathValue | data_aquisition/ADHAT_c_subroutine_NO_SOCKET.c:381-385 | with a directory of at most 224 characters the path is the directory followed by that name, untruncated |
| Columns.TimestampText | data_aquisition/ADHAT_c_subroutine_NO_SOCKET.c:132 | an `MMDDYYYY_HHMMSS.fits` stamp holds no NUL and fits a 32-byte field whole |
| Columns.SlotText | data_aquisition/ADHAT_c_subroutine_NO_SOCKET.c:448-465 | a field string shorter than 15 reaches its cell whole |
| Columns.StampedPath | data_aquisition/ADHAT_c_subroutine_NO_SOCKET.c:381-385 | a buffer whose row 0 was stamped with a timestamp is saved as the directory followed by that timestamp |
| Columns.TimestampCell | data_aquisition/ADHAT_c_subroutine_NO_SOCKET.c:448-455 | a stamped timestamp reaches its cell as its first 14 characters, dropping the last digit of the seconds |
| Handoff.Advance | data_aquisition/ADHAT_c_subroutine_NO_SOCKET.c:747-758 | keeps the invariant (row in range, active buffer 1 or 2, marker 0 or the other buffer); a full buffer is marked, the other becomes active and the row restarts at 0 |
| Handoff.AfterClosedForm | data_aquisition/ADHAT_c_subroutine_NO_SOCKET.c:731-758 | after k iterations the row is k mod nrows, the active buffer is 1 + (k / nrows) mod 2, and the marker names the last buffer filled |
| Handoff.MarksAlternate | data_aquisition/ADHAT_c_subroutine_NO_SOCKET.c:750-757 | full buffers are handed over as A, B, A, B, ..., one every nrows iterations |
| Handoff.PendingOverwritten | data_aquisition/ADHAT_c_subroutine_NO_SOCKET.c:750-754 | a marker not yet taken when the next buffer fills is replaced |
| Handoff.Decide | data_aquisition/ADHAT_c_subroutine_NO_SOCKET.c:601-607 | the writer stops on exit_flag even with a buffer pending, waits on marker 0, and otherwise takes the marked buffer |
| Handoff.TakeIsNotActive | data_aquisition/ADHAT_c_subroutine_NO_SOCKET.c:601-613 | the buffer the writer takes is never the one being filled |
| Handoff.Pipeline.AdvanceRow | data_aquisition/ADHAT_c_subroutine_NO_SOCKET.c:747-758 | the loop's lines after `GET_DATA` perform `Advance` and keep the invariant |
| Handoff.Pipeline.SignalExit | data_aquisition/ADHAT_c_subroutine_NO_SOCKET.c:93-96 | exit_flag is set and nothing else changes |
| Handoff.Pipeline.WriterTake | data_aquisition/ADHAT_c_subroutine_NO_SOCKET.c:598-614 | marker 1 maps to bufferA and 2 to bufferB, and the marker is cleared before the save; on exit_flag the pending marker is left |
| Acquisition.LoClosedForm | data_aquisition/ADHAT_c_subroutine_NO_SOCKET.c:264-275 | the k-th stamped LO is 650 + 2((k-1) mod 100) MHz |
| Acquisition.LoStamped | data_aquisition/ADHAT_c_subroutine_NO_SOCKET.c:264-275 | every stamped LO is an even MHz in [650, 848]; the sequence has period 100; 848 comes exactly on every 100th call |
| Acquisition.DecodeState | data_aquisition/ADHAT_c_subroutine_NO_SOCKET.c:296-319 | the loop computes the weighted sum of [code >= 3] over channels 7..9, which lies in [0, 7] |
| Acquisition.StateBits | data_aquisition/ADHAT_c_subroutine_NO_SOCKET.c:299-319 | bit c of the state is the threshold of channel 7+c; state 0 exactly when all three codes are below 3 |
| Acquisition.HitsBound | data_aquisition/ADHAT_c_subroutine_NO_SOCKET.c:326-331 | the counter can rise only on the calls where the LO is 848, so after k calls it is at most k/100 |
| Acquisition.StampRowFields | data_aquisition/ADHAT_c_subroutine_NO_SOCKET.c:335-355 | TIME_RPI2 and FILENAME become the timestamp cut to 31 characters and NUL-padded; STATE holds the state in decimal and reads back; FREQUENCY holds the LO; the readings are kept |
| Acquisition.StateText | data_aquisition/ADHAT_c_subroutine_NO_SOCKET.c:335-349 | the STATE field holds the one-digit decimal of the state, which `atoi` reads back |
| Acquisition.StampedCells | data_aquisition/ADHAT_c_subroutine_NO_SOCKET.c:345-355 | in the table, a stamped row gives the timestamp's first 14 characters, the whole state and the whole frequency text |
| Acquisition.AdhatProgram.GetData | data_aquisition/ADHAT_c_subroutine_NO_SOCKET.c:248-367 | -1 with LO, counter and rows unchanged on a NULL buffer, bad index or NULL row array; otherwise the LO steps, the counter counts (state 0, LO 848), the 4th count exits after the readings and before the stamp, and otherwise only row i changes, to its stamped form |
| Acquisition.AdhatProgram.Measure | data_aquisition/ADHAT_c_subroutine_NO_SOCKET.c:264-366 | the body of `GET_DATA` after its checks, with the same guarantees |
| Acquisition.GetFrequencies | data_aquisition/ADHAT_c_subroutine_NO_SOCKET.c:152-167 | NULL on allocation failure, otherwise n values s + i*((e-s)/n) with C truncating division |
| Acquisition.FrequenciesSpan | data_aquisition/ADHAT_c_subroutine_NO_SOCKET.c:160-164 | for s <= e the values run from s, never pass e, and are evenly spaced |
| Acquisition.ParseArgsRoundTrip | data_aquisition/ADHAT_c_subroutine_NO_SOCKET.c:649-672 | three positive arguments written in decimal are accepted and read back exactly |
| Acquisition.ParseArgsRejects | data_aquisition/ADHAT_c_subroutine_NO_SOCKET.c:649-672 | refused exactly when there are fewer than 4 arguments or one reads as <= 0; an argument without digits is refused |
| Acquisition.Startup | data_aquisition/ADHAT_c_subroutine_NO_SOCKET.c:648-690 | 1 before any allocation on bad arguments; 1 on a failed allocation or `gpioInitialise`; otherwise two fresh zeroed buffers, row 0 of bufferA, no marker |
| Acquisition.ProducerStep | data_aquisition/ADHAT_c_subroutine_NO_SOCKET.c:736-758 | one iteration: `GET_DATA` at the row index, then the bookkeeping unless it exited; the counter and LO as `GET_DATA` states |
| Acquisition.Produce | data_aquisition/ADHAT_c_subroutine_NO_SOCKET.c:731-769 | the loop runs until exit_flag or the 4th counted iteration; the LO is its closed form and the counter equals the counted hits; exiting takes at least 400 iterations; after the m iterations whose bookkeeping ran (all but an exiting last one) the row and buffer are m mod nrows and 1 + (m/nrows) mod 2 |
| Acquisition.Shutdown | data_aquisition/ADHAT_c_subroutine_NO_SOCKET.c:766-778 | exit_flag is set, the writer stops without saving a pending buffer, and both buffers are freed and nulled |
| Acquisition.SaveOutput | data_aquisition/ADHAT_c_subroutine_NO_SOCKET.c:369-539 | -1 for NULL; otherwise the Continuous_Sweep path from row 0's name, the status with the close checked, and the table of the first nrows rows |
| Acquisition.SavePathOfStamp | data_aquisition/ADHAT_c_subroutine_NO_SOCKET.c:381-385 | a buffer stamped at ts is saved as `!/home/peterson/Continuous_Sweep/` + ts |
| Acquisition.Operate | data_aquisition/ADHAT_c_subroutine_NO_SOCKET.c:731-778 | the producer loop then, unless `exit(0)` ended the process, the teardown: the loop's end and exit as `Produce` states, all four blocks freed exactly when `exit_flag` ended the loop, none after `exit(0)` |
| Acquisition.Run | data_aquisition/ADHAT_c_subroutine_NO_SOCKET.c:648-783 | `main`: 1 exactly on bad arguments or a failed allocation or `gpioInitialise`, otherwise 0; a started run either exits after its 4th counted iteration, at least 400 iterations in, or runs until `exit_flag` and then gives back every block it allocated |
| Acquisition.WriterStep | data_aquisition/ADHAT_c_subroutine_NO_SOCKET.c:598-641 | the take step, then `SAVE_OUTPUT` exactly for a non-NULL buffer taken, which is the marked buffer and never the active one; the writer saves the Continuous_Sweep file named by that buffer's row 0, and its table holds that buffer's nrows rows |
| FilterSweep.TotalStepsValue | src/calibration/filterSweep.c:22-25 | `TOTAL_STEPS` is 301 and the last row is at 960 MHz |
| FilterSweep.IncrementLoAt | src/calibration/filterSweep.c:146-161 | the increment stops at 960 MHz with no wrap; the LO stays in [900, 960] |
| FilterSweep.TimestampField | src/calibration/filterSweep.c:124-125 | `strncpy(field, ts, 31); field[31] = '\0'` holds the timestamp cut to 31 characters |
| FilterSweep.PowerField | src/calibration/filterSweep.c:128-129 | STATE holds the power with an explicit sign, which `atoi` reads back |
| FilterSweep.MetadataFields | src/calibration/filterSweep.c:120-139 | TIME_RPI2, FILENAME, STATE and FREQUENCY (`%.1f` of the LO before the step) as written; the readings are kept |
| FilterSweep.HelpersSucceed | src/calibration/filterSweep.c:100-138 | with a row and a timestamp neither helper fails, and together they give one measurement |
| FilterSweep.SweepProgram.IncrementLoFrequency | src/calibration/filterSweep.c:146-161 | adds 0.2 MHz only below 960 MHz and returns 0 |
| FilterSweep.SweepProgram.GetData | src/calibration/filterSweep.c:171-224 | -1 with LO and rows unchanged on a bad buffer, index, row array or missing timestamp; otherwise row i gets the readings and the metadata of the current LO, then the LO steps |
| FilterSweep.PassStateDescribed | src/calibration/filterSweep.c:514-525 | after k measurements the LO has advanced once per success, every row before k holds its recorded value (or its old contents when its timestamp failed), and later rows are untouched |
| FilterSweep.CompletePass | src/calibration/filterSweep.c:514-525 | in a pass where every timestamp is made, row i records 900 + 0.2i MHz in `%.1f`, the pass's signed power and its own readings |
| FilterSweep.Sweep | src/calibration/filterSweep.c:514-525 | the pass completes exactly when exit_flag is not seen before its last row; the rows and LO are the pass state after the measurements made |
| FilterSweep.LastDot | src/calibration/filterSweep.c:246 | `strrchr`: the position of the last '.', or none when there is no '.' |
| FilterSweep.CutAtLastDot | src/calibration/filterSweep.c:246-247 | the base name is cut at its last '.', so the result is a prefix |
| FilterSweep.FitsNameValue | src/calibration/filterSweep.c:250 | the 64-byte name is stem + "_" + signed power + "dBm.fits", untruncated |
| FilterSweep.OutputPathValue | src/calibration/filterSweep.c:251 | the 256-byte path is "!" + `OUTPUT_DIR` + "/" + name, untruncated |
| FilterSweep.TimestampStem | src/calibration/filterSweep.c:246-247 | a timestamp loses exactly its ".fits" |
| FilterSweep.SavedUnderTimestamp | src/calibration/filterSweep.c:240-251 | a pass stamped at MMDDYYYY_HHMMSS.fits is saved as OUTPUT_DIR/MMDDYYYY_HHMMSS_<+p>dBm.fits |
| FilterSweep.SaveOutput | src/calibration/filterSweep.c:226-386 | -1 for NULL; otherwise that path, the status with a failing close ignored, and the table of the rows |
| FilterSweep.Pass | src/calibration/filterSweep.c:504-536 | one pass at its power; when it completes, the buffer is the next pass state and its save is recorded |
| FilterSweep.Passes | src/calibration/filterSweep.c:504-546 | the +5 dBm pass, then the -4 dBm pass, each saved once, the first interrupted pass ending the loop |
| FilterSweep.Run | src/calibration/filterSweep.c:451-554 | 1 on a failed allocation or `gpioInitialise`; otherwise the passes saved are those completed before exit_flag, each with its power, path, status and table, the buffer is freed and 0 is returned |
| CalibV2.StepLoAfter | calibration/calibCode_v2.c:122-126 | from 902.4 MHz each call adds 0.2 MHz until 957.4 MHz, which it never leaves |
| CalibV2.SweepFrequencies | calibration/calibCode_v2.c:122-126 | the j-th row records 902.6 + 0.2j MHz, up to 957.4 MHz at j = 274 |
| CalibV2.StateField | calibration/calibCode_v2.c:158-159 | STATE and its cell hold "GPIOS_NOT_SET" |
| CalibV2.FrequencyField | calibration/calibCode_v2.c:161 | FREQUENCY and its cell hold the `%f` text of the LO |
| CalibV2.CalibStampFields | calibration/calibCode_v2.c:155-165 | TIME_RPI2 and FILENAME hold the timestamp cut to 31 characters, STATE "GPIOS_NOT_SET", FREQUENCY the LO after the step; the readings are kept |
| CalibV2.CalibProgram.GetData | calibration/calibCode_v2.c:109-173 | -1 with nothing changed for NULL or i >= nrows only; otherwise the LO steps and row i gets the readings and the stamp |
| CalibV2.ProducerStep | calibration/calibCode_v2.c:509-522 | one loop iteration, with the bookkeeping always advanced |
| CalibV2.Produce | calibration/calibCode_v2.c:504-525 | after any number of iterations the LO is still below 957.6 MHz, so the loop condition holds |
| CalibV2.ProducedBook | calibration/calibCode_v2.c:504-521 | after n iterations the loop condition holds and the row and buffer are n mod nrows and 1 + (n/nrows) mod 2 |
| CalibV2.LoopNeverExits | calibration/calibCode_v2.c:122-126 | the LO saturates at 957.4 MHz, below the loop bound 957.6, and stops moving after 275 calls |
| CalibV2.OneSweep | calibration/calibCode_v2.c:504-525 | with the bound 957.4 the loop ends after exactly 275 iterations with the LO at 957.4 MHz |
| CalibV2.SaveOutput | calibration/calibCode_v2.c:175-326 | -1 for NULL; otherwise the FilterCalibrations path from row 0's name, the status with a failing close ignored, and the table |
| CalibV2.CalibPathOfStamp | calibration/calibCode_v2.c:188-191 | a buffer stamped at ts is saved as `!/home/peterson/FilterCalibrations/` + ts |
| CalibV2.WriterStep | calibration/calibCode_v2.c:384-419 | the take step, then `SAVE_OUTPUT` exactly for a non-NULL buffer taken, which is the marked buffer and never the active one; the writer saves the FilterCalibrations file named by that buffer's row 0, and its table holds that buffer's nrows rows |
| CalibV2.RunOneSweep | calibration/calibCode_v2.c:424-554 | `main` with the loop corrected as in the Findings table (`CalibV2.OneSweep`): 1 exactly on bad arguments or a failed allocation or `gpioInitialise`; otherwise the sweep ends at 957.4 MHz, every allocated block is given back and 0 is returned. The `main` as written never gets past its loop (`CalibV2.LoopNeverExits`) |
| CalibrationUtils.Concat3Layout | tools/rtviewer/calibration_utils.py:8-14 | the list has 3·len(a1) entries: a1's, then a2's and a3's at the same indices |
| CalibrationUtils.MakeSingleListOfInts | tools/rtviewer/calibration_utils.py:8-14 | the concatenated list, or IndexError exactly when a2 or a3 is shorter than a1 |
| CalibrationUtils.VoltRange | tools/rtviewer/calibration_utils.py:17-27 | the upper branch is taken exactly for codes at or above 2^31; every 32-bit code maps into [0, 5] V, with 0 V only for 0 |
| CalibrationUtils.ToVolts | tools/rtviewer/calibration_utils.py:17-27 | one volt value per code, in order |
| CalibrationUtils.CurveLine | tools/rtviewer/calibration_utils.py:39-42 | slope -40 and intercept 40·(v_n + 0.025·pwrSetting) |
| CalibrationUtils.CalibrationCurve | tools/rtviewer/calibration_utils.py:29-44 | keys exactly 0..20, filter n from row 20+13n at index n; IndexError exactly when a scheduled row is missing or too short |
| CalibrationUtils.ToDB | tools/rtviewer/calibration_utils.py:47-51 | 21 values slope_n·v[n] + intercept_n; succeeds exactly when filters 0..20 are present and the sweep has 21 values; otherwise the first failing index n raises KeyError when filter n is missing (the dictionary is read first) and IndexError when only the sweep is too short |
| CalibrationUtils.CurveInverts | tools/rtviewer/calibration_utils.py:39-51 | the calibration rows' own voltages give back pwrSetting for every filter |
| CalibrationUtils.ScheduleInSweep | tools/rtviewer/calibration_utils.py:31-34 | row 20+13n exists in a 301-row filter sweep, sits at 904 + 2.6n MHz, and the `int(x*10)/10` cut keeps it |
| FilterResponse.SignedBipolarRange | tools/Plotting/FilterResponsePlots.py:138 | the result lies in [-2^31, 2^31) and is congruent to the code mod 2^32 |
| FilterResponse.SignedBipolarUnique | tools/Plotting/FilterResponsePlots.py:138 | it is the only such value |
| FilterResponse.SignedBipolarCases | tools/Plotting/FilterResponsePlots.py:136-138 | identity on signed codes, c - 2^32 for unsigned codes at or above 2^31 |
| FilterResponse.SignedVoltScale | tools/Plotting/FilterResponsePlots.py:139-140 | +(2^31-1) maps to +ref, -(2^31-1) to -ref, 0 to 0 |
| FilterResponse.CLikeBranch | tools/Plotting/FilterResponsePlots.py:123-124 | on 32-bit codes the negative branch is taken exactly for codes negative in two's complement |
| FilterResponse.CLikeDefaultRange | tools/Plotting/FilterResponsePlots.py:119-131 | with the default denominators every unsigned 32-bit code maps into [0, ref] |
| FilterResponse.CLikeNegativeCodes | tools/Plotting/FilterResponsePlots.py:123-128 | a negative code wraps modulo 2^64, not 2^32, and lands below -ref |
| FilterResponse.CLikeVolts | tools/Plotting/FilterResponsePlots.py:123-131 | the two masked assignments fill every entry with its branch's value |
| FilterResponse.AdcCountsToVoltage | tools/Plotting/FilterResponsePlots.py:117-144 | ValueError exactly for an unknown mode; otherwise one value per code, by the c_like or signed_bipolar formula |
| FilterResponse.StripLeftDrops | tools/Plotting/FilterResponsePlots.py:60 | the left strip removes only white space |
| FilterResponse.StripRightDrops | tools/Plotting/FilterResponsePlots.py:60 | the right strip removes only white space |
| FilterResponse.StripDigits | tools/Plotting/FilterResponsePlots.py:60 | stripping keeps every digit |
| FilterResponse.FirstMatch | tools/Plotting/FilterResponsePlots.py:61 | a found position starts a number |
| FilterResponse.FirstMatchLeftmost | tools/Plotting/FilterResponsePlots.py:61 | the search finds the leftmost start, and fails only where there is none |
| FilterResponse.NumberNone | tools/Plotting/FilterResponsePlots.py:61-62 | the search fails exactly when the text has no digit |
| FilterResponse.ParseNaN | tools/Plotting/FilterResponsePlots.py:58-62 | NaN exactly for None and for text without a digit |
| FilterResponse.ScaleAfterDigits | tools/Plotting/FilterResponsePlots.py:63-68 | the digits of the number never affect the unit tests |
| FilterResponse.UnitGHz | tools/Plotting/FilterResponsePlots.py:64 | digits, one space and "GHz" in any letter case give the value times 1000 |
| FilterResponse.UnitMHz | tools/Plotting/FilterResponsePlots.py:63-65 | digits, one space and "MHz" in any letter case give the value, not read as Hz |
| FilterResponse.UnitKHz | tools/Plotting/FilterResponsePlots.py:66 | digits, one space and "kHz" in any letter case give the value divided by 1000 |
| FilterResponse.UnitHz | tools/Plotting/FilterResponsePlots.py:67 | digits, one space and "Hz" in any letter case give the value divided by 10^6 |
| FilterResponse.NoUnit | tools/Plotting/FilterResponsePlots.py:68 | a fixed-point text such as the `%f` FREQUENCY field has no unit word and is taken as MHz |
| FilterResponse.ParseTenths | tools/Plotting/FilterResponsePlots.py:58-68 | the FREQUENCY text the C programs write parses back to that frequency in MHz |

## Left out

- ADC and GPIO hardware: the `ADS1263_*` reads are inputs (`Sample`), and `INITIALIZE_ADS`, `CLOSE_GPIO`, `gpioWrite`, `gpioDelay`, `usleep` and `sleep` are not modelled. The pulse sequences are not recorded.
- Threads: the mutex, the condition variable and thread creation and joining are not modelled. The handoff is a sequence of atomic producer iterations and writer takes, chosen by the `takes` input.
- Signals: the SIGINT and SIGTERM handlers are represented by an iteration count (`interruptAt`) from which `exit_flag` is seen.
- `GET_TIME`: the wall clock and `strftime` are an input string. In the acquisition program and `calibCode_v2.c` a NULL timestamp is passed to `strncpy` unchecked, which is undefined behaviour, so there the timestamp is always a string. In `filterSweep.c` it is an `Option`, and its NULL path is modelled.
- cfitsio: each library call is the status it reports. The column names, units, extension name and the file itself are not modelled. The column buffers, the output path and the status order are.
- `SAVE_OUTPUT` memory defects are not modelled as behaviour: the redundant `col6_data` test, `free(col6_data)` in place of `col7_data`, the `col4`..`col7` data buffers never freed, and the pointer arrays of `nrows * 7` entries pointing past the data buffers.
- The `printf` diagnostics, the `clock()` timings, and the usage message's missing arguments are not modelled.
- `COMBINE_BUFFERS` (no return value), the commented-out `PIPE_WRITE` / `RUN_COMMAND` block and the commented-out `GET_FREQUENCIES` of `calibCode_v2.c` are dead code.
- The `exit(0)` in the acquisition program's `GET_DATA` ends the process with no teardown. The model returns `Exited(0)`, and `Acquisition.Produce` stops there without running `Acquisition.Shutdown`.
- Floating point: LO values accumulated by `+= 0.2`, `%f` / `%.1f` rounding, and Python float rounding and overflow are all exact here, as integer tenths and `real`s. The drift of repeated `+= 0.2` is therefore not captured.
- Acquisition.GetFrequencies: the doubles it stores hold whole numbers and are modelled as `int`. The `malloc` size overflow for huge `nrows` is not modelled.
- CText.Atoi: values that overflow `int` are undefined behaviour in C. The model reads them as unbounded integers.
- Acquisition.ProducerStep: states the LO, the counter and the bookkeeping after the iteration, but not the row it wrote. `Acquisition.AdhatProgram.GetData` states that row.
- CalibV2.ProducerStep: states the LO and the bookkeeping, but not the row written. `CalibV2.CalibProgram.GetData` states it.
- Acquisition.Produce: does not restate the rows of either buffer. Each iteration's row is stated by `GET_DATA`'s contract.
- CalibV2.RunOneSweep: models `main` with the corrected loop bound 957.4 MHz, not the 957.6 MHz as written. With the bound as written `main` never returns, so there is no result to state (see `CalibV2.LoopNeverExits` and the Findings table).
- CalibV2.CalibProgram.GetData: requires that an index below `nrows` is not negative and that the row array exists. `GET_DATA` does not check these, and writing there is undefined behaviour in C. `main` never passes such a buffer or index.
- `calibCode_v2.c`'s argument checks, start-up and shutdown are the acquisition program's code, reused from `Acquisition`. The calibration program's `GET_DATA` writes the readings and the stamp in one row update.
- Python `str.strip()`, `str.lower()` and `\d` are modelled on ASCII only. Unicode white space, Unicode digits and non-ASCII case mapping are not modelled.
- `_to_str`'s decoding of bytes is not modelled: the column value is already a string, or `None`.
- NumPy: `astype(np.uint64)` is modelled on integer codes only. The casts of negative or fractional floats and the `int64` overflow of `astype(np.int64)` are not modelled.
- `calibrationCurve` reads FREQUENCY through `float()`; the model takes the parsed value as a `real` column. The `print` of the dictionary's length is not modelled.
- `voltage_to_dbm`, `load_filterbank_table`, `inspect_fits_table`, the plotting functions and the script part of `FilterResponsePlots.py` are numerics, plotting and file I/O.
- `dashboard.py` and `rtviewer.py` are UI and plotting code. Their helpers repeat `calibration_utils.py`.

## Findings

| source | as written | input that shows it | evidently intended | confidence | as-written member | corrected member |
|---|---|---|---|---|---|---|
| calibration/calibCode_v2.c:504 | `main` loops while `LO_FREQ < 957.6`, but `GET_DATA` stops stepping at 957.4 MHz (line 122) and the loop never reads `exit_flag` | any run: after 275 iterations the LO stays at 957.4 MHz (9574 tenths), which is below 9576, so the loop goes on with the same LO | stop after one sweep, as the comment above the loop says: loop while `LO_FREQ < 957.4` | not executed (in exact arithmetic; with doubles the accumulated value may differ) | CalibV2.LoopNeverExits | CalibV2.OneSweep |
