# AXP power drivers, sunxi TV encoder and e-ink display path, in Dafny

This project models the statable core of a set of Allwinner (sunxi) kernel
drivers and proves properties of that model.

- **AXP PMIC core** (`regmap.dfy`, `axp_core.dfy`). The PMIC's 8-bit registers sit behind an I2C or RSB transport. On top of them sit:
  - the read-modify-write helpers `set_bits`, `clr_bits` and `update`;
  - the packed multi-register write, with the RSB side that decodes it;
  - the chunked RSB block read;
  - the interrupt table and the interrupt work;
  - the `axp_reg` / `axp_regs` debug attributes.
- **AXP regulators** (`axp_regulator.dfy`, `regu_attrs.dfy`, `axp22_regu.dfy`, `axp152_regu.dfy`):
  - voltage-to-register-field conversion for single-step and two-step regulators, and back;
  - table-driven selectors;
  - enable and disable;
  - the DCDC work-mode and frequency sysfs handlers of the AXP22x and AXP152;
  - their probe loops.
- **AXP22x charger** (`axp22_charger.dfy`, `charger_dt.dfy`):
  - the USB hold-voltage and hold-current limits;
  - the charge current and voltage codes;
  - the battery readings;
  - the register programming of `axp22_charger_init`;
  - the device-tree parse that fills the configuration record.
- **AXP22x GPIO** (`axp22_gpio.dfy`): get and set of a pin's data; the pin-mux setter and getter.
- **Virtual consumer** (`virtual_consumer.dfy`): the sysfs device that drives one regulator's voltage and current window and its mode.
- **TV encoder** (`tve.dfy`, `drv_tv.dfy`):
  - the sign-magnitude DAC calibration of the sun8iw11 encoder;
  - the DAC status;
  - the TV driver's mode table and per-screen state.
- **E-ink display path** (`ring.dfy`, `eink_buffer.dfy`, `eink_manager.dfy`):
  - the image ring queue;
  - the wave-data ring;
  - the double-buffered index calculation;
  - the frame counters of a panel update;
  - single steps of the decode work, the display interrupt and the detect-fresh thread.

`common.dfy` holds the shared vocabulary:
- `Option`;
- the kernel error numbers;
- C's truncating casts and truncating division.

`parse.dfy` models the kernel's string-to-number helpers that the sysfs handlers call.

A register file is a value: a map from address to byte, the addresses whose transfers fail, and a log of writes. Objects whose fields the drivers update in place are classes, with one method per operation. These are the interrupt table, the charger configuration, the TV driver state, the virtual consumer, the TV encoder, the image queue, the wave-data ring and the e-ink manager.

Where the driver calls hardware or a framework, the model does one of two things:
- it records the call in a log;
- it takes the call's result as a parameter.

Examples of such calls are `disp_al_*`, the pipeline manager, clocks, kernel threads and the regulator framework.

Constants defined in headers that are not part of this model become parameters of the operation or constructor that uses them:
- `IMAGE_BUF_NUM`, `WAVE_DATA_BUF_NUM`;
- the `EINK_*` modes;
- the `disp_tv_mode` values;
- the AXP22 register addresses.

The one exception is `AXP_TRANS_BYTE_MAX`, the largest RSB block. `Regmap.TransByteMax` fixes it at 8, and the proofs use only that it is positive.

Where the code and its description disagree, the model follows the code:
- In `eink_decode_task`, the wait for a free wave-data buffer stops after 100 retries. The early return behind it tests `count > 100`, so it is never taken. Decoding then starts with buffer address 0 (`EinkManager.Manager.WaitForDecodeBuffer`, `DecodeNext`).
- `eink_calculate_index_data` runs in the detect-fresh thread with its result dropped (`CalculateIndexDropped`).
- The decode step always takes `index_paddr[new_index]`.
- The detect-fresh step keeps the `flush_continue_flag` test. That test is compiled only under `__EINK_TEST__`. With the flag at its initial value (on), it changes nothing.
- In the two-step branches of `axp_set_voltage`, the field value is not shifted by `vol_shift`. The value is also truncated to a `u8`.
- `axp22_charger_init` reads an uninitialised `val` (the `stale` parameter). It also replaces `pmu_powkey_off_time` with its 2-bit code.
- `tve_clk_disable` (drv_tv.c:228-234) calls `clk_prepare_enable` on the screen's clock and on the encoder's clock. So `tv_suspend` leaves both clocks running, and each suspend and resume adds two enable references to each (`DrvTv.SuspendResumeClockReferences`).
- `axp_list_voltage` rebases the selector by `(switch_uV - min_uV) / step1_uV`, rounded down, while `axp_get_voltage` rounds the switch selector up. When the switch point is not a whole number of first steps above min_uV, the two disagree at the selector just above it (`AxpRegulator.ListDecodeSplitOffStep`).
- When `kthread_create` fails in `eink_enable` (disp_eink_manager.c:916-920), the function returns without releasing `slock`. Locks are not modelled, so `EinkManager.Manager.Enable` only returns the error.

## Model

| member | source | states |
|---|---|---|
| Parse.StrToUl | drivers/power/axp_power_new/axp-core.c:794 | simple_strtoul: after an optional 0x prefix in base 16, the value of the longest run of digits, modulo 2^64, and the end position, which never rests on a digit |
| Parse.KStrToInt | drivers/power/axp_power_new/axp22/axp22-regu.c:364 | kstrtoint succeeds only with a value in the s32 range, and then agrees with the 64-bit parse |
| Parse.KStrToLl | drivers/power/axp_power_new/virtual.h:107 | a successful signed 64-bit parse lies in the s64 range |
| Parse.KStrToIntRejectsTrailing | drivers/power/axp_power_new/axp22/axp22-regu.c:364-366 | decimal digits followed by anything other than a newline are rejected with -EINVAL or -ERANGE |
| Parse.ScanUnsigned | drivers/power/axp_power_new/axp22/axp22-regu.c:315 | sscanf "%u" assigns a value exactly when a decimal digit follows the leading white space, and the value is taken modulo 2^32 |
| Regmap.Read | drivers/power/axp_power_new/axp-core.c:83-113 | a register read succeeds exactly when its u8 address is reachable, and then yields that register's value; otherwise the transport's error |
| Regmap.ReadInto | drivers/power/axp_power_new/axp-core.c:344-347 | on success the destination holds the register's value; on failure it keeps what it held before |
| Regmap.Write | drivers/power/axp_power_new/axp-core.c:254-264 | a write to an unreachable address returns the error with nothing changed; otherwise it stores the value at the u8 address, logs the transfer and returns 0 |
| Regmap.StoreEffect | drivers/power/axp_power_new/axp-core.c:163-193 | a stored register reads back its value, every other register is unchanged and one transfer is logged |
| Regmap.WriteEffect | drivers/power/axp_power_new/axp-core.c:320-329 | after a successful write the register holds the value and no other register changed |
| Regmap.SetBits | drivers/power/axp_power_new/axp-core.c:356-376 | a read error is returned with no write; when every bit of the mask is already set nothing is written; otherwise reg OR mask is written and 0 returned |
| Regmap.ClrBits | drivers/power/axp_power_new/axp-core.c:379-399 | a read error is returned with no write; reg & ~mask is written exactly when some bit of the mask was set |
| Regmap.Update | drivers/power/axp_power_new/axp-core.c:402-421 | a read error is returned with no write; the register is rewritten as (reg AND NOT mask) OR val exactly when (reg AND mask) != val |
| Regmap.SetBitsEffect | drivers/power/axp_power_new/axp-core.c:367-370 | after set_bits the register equals its old value with the mask ORed in, and no other register changed |
| Regmap.ClrBitsEffect | drivers/power/axp_power_new/axp-core.c:390-393 | after clr_bits the register equals its old value with the mask cleared, and no other register changed |
| Regmap.UpdateEffect | drivers/power/axp_power_new/axp-core.c:412-415 | for a val inside the mask, update leaves the masked field equal to val, the bits outside the mask as they were, and every other register untouched |
| Regmap.UpdateReg | drivers/power/axp_power_new/axp-core.c:412-415 | for any val, update leaves (reg AND NOT mask) OR val in the register, including the case where no write is issued |
| Regmap.SetBitsIdempotent | drivers/power/axp_power_new/axp-core.c:356-376 | a second set_bits with the same mask writes nothing and returns what the first returned |
| Regmap.ClrBitsIdempotent | drivers/power/axp_power_new/axp-core.c:379-399 | a second clr_bits with the same mask writes nothing and returns what the first returned |
| Regmap.UpdateIdempotent | drivers/power/axp_power_new/axp-core.c:402-421 | for val inside the mask a second identical update performs no write and returns the first one's result |
| Regmap.ReadsRsb | drivers/power/axp_power_new/axp-core.c:115-161 | a block read of len registers succeeds exactly when every register of the range is reachable; on failure it returns the transport error and the data of the whole blocks before the first unreachable one; every byte delivered is the register at reg + i |
| Regmap.RsbDecode | drivers/power/axp_power_new/axp-core.c:206-222 | a buffer of odd length decodes into (len + 1) / 2 address/value pairs |
| Regmap.PackChunk | drivers/power/axp_power_new/axp-core.c:273-280 | a stretch of w registers is packed into 2w - 1 bytes, always an odd count |
| Regmap.DecodePack | drivers/power/axp_power_new/axp-core.c:206-222 | decoding the packing of _axp_writes gives back consecutive registers from reg paired with their values, in order (a round trip) |
| Regmap.LoadBlock | drivers/power/axp_power_new/axp-core.c:213-222 | the inner loop fills addr[0..n) and data[0..n) with exactly the next n decoded pairs, the very first one taking the start register as its address |
| Regmap.WritesRsb | drivers/power/axp_power_new/axp-core.c:195-251 | the imperative block loop has the same effect and return code as the transport's decoded specification: blocks of at most AXP_TRANS_BYTE_MAX pairs, stopping at the first failure |
| Regmap.ChunkPlanShape | drivers/power/axp_power_new/axp-core.c:272-280 | the k-th buffer handed over starts at register reg + 15k and is the packing of the next min(15, rest) values |
| Regmap.ChunkPlanCount | drivers/power/axp_power_new/axp-core.c:272-291 | _axp_writes makes ceil(len / 15) transport calls when none fails |
| Regmap.ChunkPlanFits | drivers/power/axp_power_new/axp-core.c:270-279 | every buffer handed over has between 1 and 29 bytes, so it fits in the 32-byte wr_val |
| Regmap.PackInto | drivers/power/axp_power_new/axp-core.c:275-280 | the packing loop leaves in wr_val[0..2w-1) exactly the packed stretch |
| Regmap.SendChunk | drivers/power/axp_power_new/axp-core.c:273-285 | one round packs the stretch and hands 2w - 1 bytes starting at rw_reg to the transport |
| Regmap.WritesRound | drivers/power/axp_power_new/axp-core.c:272-290 | one round of the loop advances the run of the plan by its first buffer: on an error it is the final outcome, otherwise the rest of the plan remains |
| Regmap.Writes | drivers/power/axp_power_new/axp-core.c:266-294 | the loop's final bus, return code and buffers sent equal running the plan of 15-register chunks in order and stopping at the first error |
| Regmap.WritesAllReachable | drivers/power/axp_power_new/axp-core.c:266-294 | with every register of the range reachable, _axp_writes returns 0, hands over the whole plan and writes vals[i] to register reg + i in order |
| Regmap.WritesEffect | drivers/power/axp_power_new/axp-core.c:332-341 | when every register of a range of at most 256 is reachable, axp_regmap_writes returns 0, register reg + i (mod 256) holds vals[i] and every other register is unchanged |
| AxpCore.IrqSlotsDistinct | drivers/power/axp_power_new/axp-core.c:663-665 | two different interrupt numbers never share both the enable register enable_base + irq_no / 8 and the bit 1 << (irq_no % 8) |
| AxpCore.WordBit | drivers/power/axp_power_new/axp-core.c:544-545 | bit j of the assembled interrupt word is bit j % 8 of reg_val[j / 8] for j below 8 * num_regs, and clear above |
| AxpCore.BuildWord | drivers/power/axp_power_new/axp-core.c:544-545 | the OR-and-shift loop over the first num_regs status bytes yields the little-endian word of those bytes |
| AxpCore.DispatchMembers | drivers/power/axp_power_new/axp-core.c:547-552 | a handler is called for interrupt j exactly when j < num_irqs, bit j of the word is set and a handler is registered for j, and it is called with that slot's data |
| AxpCore.DispatchOrdered | drivers/power/axp_power_new/axp-core.c:547-552 | handlers are called in increasing interrupt order |
| AxpCore.RunHandlers | drivers/power/axp_power_new/axp-core.c:547-552 | the for_each_set_bit loop performs exactly the dispatch the two lemmas above characterise |
| AxpCore.StatusWordBits | drivers/power/axp_power_new/axp-core.c:541-545 | with the status registers reachable, bit j of the word is bit j % 8 of status register status_base + j / 8 |
| AxpCore.AxpDev.constructor | drivers/power/axp_power_new/axp-core.c:590-602 | a new irq table has 8 * num_regs empty slots (no handler, no data) |
| AxpCore.AxpDev.RequestIrq | drivers/power/axp_power_new/axp-core.c:650-670 | an out-of-range number or a missing handler returns -1 and changes nothing; otherwise the slot takes handler and data and the enable bit is set with set_bits, whose result is returned |
| AxpCore.RequestSetsEnable | drivers/power/axp_power_new/axp-core.c:663-666 | with the enable register reachable, requesting leaves the interrupt's enable bit set and every other register as it was |
| AxpCore.AxpDev.EnableIrq | drivers/power/axp_power_new/axp-core.c:673-692 | an out-of-range number returns -1; a slot without a handler returns 0 with no register access; otherwise the enable bit is set; the table never changes |
| AxpCore.AxpDev.DisableIrq | drivers/power/axp_power_new/axp-core.c:695-712 | an out-of-range number returns -1; otherwise the enable bit is cleared whether or not a handler is registered; the table never changes |
| AxpCore.DisableClearsEnable | drivers/power/axp_power_new/axp-core.c:705-708 | with the enable register reachable, disabling leaves the enable bit clear and every other register as it was |
| AxpCore.AxpDev.FreeIrq | drivers/power/axp_power_new/axp-core.c:715-736 | an out-of-range number returns -1 and changes nothing; otherwise 0 is returned and, when a handler was registered, its enable bit is cleared and handler and data are reset |
| AxpCore.AxpDev.IrqWork | drivers/power/axp_power_new/axp-core.c:532-561 | the handlers called are the dispatch of the word assembled from the status bytes read; the same bytes are then written back to the status registers; the table is unchanged |
| AxpCore.AxpDev.RegShow | drivers/power/axp_power_new/axp-core.c:740-748 | reports the selected register address together with the read of that register |
| AxpCore.RegCommand | drivers/power/axp_power_new/axp-core.c:753-757 | the hexadecimal number parsed from the buffer, as the s32 tmp holds it |
| AxpCore.AxpDev.RegStore | drivers/power/axp_power_new/axp-core.c:750-767 | a value below 256 only selects the register; any other value selects (tmp >> 8) & 0xff and writes tmp & 0xff to it; count is returned |
| AxpCore.RegStoreShow | drivers/power/axp_power_new/axp-core.c:757-764 | after a store of a value of 256 or more to a reachable register, reading the selected register gives back the written byte |
| AxpCore.RegsValues | drivers/power/axp_power_new/axp-core.c:807-808 | the two bytes written are bits 15..8 and 7..0 of data1, so together they hold data1 mod 65536 |
| AxpCore.AxpDev.RegsStore | drivers/power/axp_power_new/axp-core.c:786-813 | input without a space after the first number returns -EINVAL and changes nothing; otherwise the count is stored, data1 below 256 selects a register and anything else selects (data1 >> 16) & 0xff and writes two bytes from there |
| AxpCore.AxpDev.SelectRegs | drivers/power/axp_power_new/axp-core.c:803-810 | the address selection and two-register write that regs_store performs for a given data1 |
| AxpCore.RegsStoreEffect | drivers/power/axp_power_new/axp-core.c:803-809 | with both target registers reachable, the write succeeds and they hold bits 15..8 and 7..0 of data1 |
| AxpRegulator.CheckRange | drivers/power/axp_power_new/axp-regulator.c:29-36 | 0 exactly when min_uv lies in [min_uV, max_uV] of the regulator, otherwise -EINVAL |
| AxpRegulator.CheckRangeIgnoresMax | drivers/power/axp_power_new/axp-regulator.c:29-36 | the requested max_uv never changes the verdict |
| AxpRegulator.CeilStepsLeast | drivers/power/axp_power_new/axp-regulator.c:71-72 | the single-step selector is the least k >= 0 with k * step1 >= min_uv - min_uV |
| AxpRegulator.TwoStepVal | drivers/power/axp_power_new/axp-regulator.c:52-69 | every step of the two-step branches keeps the u8 val within a byte |
| AxpRegulator.NewLevelVal | drivers/power/axp_power_new/axp-regulator.c:52-62 | the intermediate u8 truncations of the new-level branch amount to one final truncation of ceil((switch - min) / step1) + (the steps above the new level) + 1 |
| AxpRegulator.PlainVal | drivers/power/axp_power_new/axp-regulator.c:63-69 | the intermediate u8 truncations of the plain two-step branch amount to one final truncation of ceil((switch - min) / step1) + (min_uv - switch) / step2 |
| AxpRegulator.SetVoltage | drivers/power/axp_power_new/axp-regulator.c:39-102 | an out-of-range min_uv returns -EINVAL with nothing written; otherwise the voltage field is updated with the branch's val under ((1 << nbits) - 1) << shift, and the result is 0, -EINVAL or the bus error |
| AxpRegulator.DvmWait | drivers/power/axp_power_new/axp-regulator.c:88-98 | the DVM wait ends with 0 or the error of a failing read |
| AxpRegulator.GetVoltage | drivers/power/axp_power_new/axp-regulator.c:104-139 | a read error is returned; otherwise the voltage decoded from (reg & mask) >> shift |
| AxpRegulator.SetThenGet | drivers/power/axp_power_new/axp-regulator.c:77 | whatever the branch, when set_voltage writes a field value f that fits, get_voltage afterwards decodes f |
| AxpRegulator.UpdateAndRead | drivers/power/axp_power_new/axp-regulator.c:115-122 | after the update of the voltage field with k << shift, the field read back with the mask and shift is k |
| AxpRegulator.SingleStepRoundTrip | drivers/power/axp_power_new/axp-regulator.c:70-77 | for a single-step regulator and a fitting field, get after set(v) returns r with v <= r < v + step1 |
| AxpRegulator.SingleStepDecode | drivers/power/axp_power_new/axp-regulator.c:134-136 | the decoding of the single-step selector for v lies in [v, v + step1) |
| AxpRegulator.NewLevelRoundTrip | drivers/power/axp_power_new/axp-regulator.c:52-62 | with a new level, get after set(v) is one step above the new level for v at or below it, and otherwise lies in (v, v + step2] |
| AxpRegulator.NewLevelSet | drivers/power/axp_power_new/axp-regulator.c:52-62 | the new-level branch writes its selector unshifted |
| AxpRegulator.NewLevelDecode | drivers/power/axp_power_new/axp-regulator.c:124-127 | decoding the new-level selector gives the read-back stated above |
| AxpRegulator.PlainRoundTrip | drivers/power/axp_power_new/axp-regulator.c:63-69 | without a new level, get after set(v) is the last single-step voltage for v less than one step2 above the switch point, and otherwise lies in (v - step2, v] |
| AxpRegulator.PlainSet | drivers/power/axp_power_new/axp-regulator.c:63-69 | the plain two-step branch writes its selector unshifted |
| AxpRegulator.PlainDecode | drivers/power/axp_power_new/axp-regulator.c:128-133 | decoding the plain two-step selector gives the read-back stated above |
| AxpRegulator.ListVoltage | drivers/power/axp_power_new/axp-regulator.c:176-197 | list_voltage returns -EINVAL or a voltage no higher than max_uV |
| AxpRegulator.ListMatchesDecode | drivers/power/axp_power_new/axp-regulator.c:181-196 | for a single-step regulator without overflow, list_voltage(sel) is the voltage get_voltage decodes from field value sel, or -EINVAL when that exceeds max_uV |
| AxpRegulator.ListMatchesDecodeTwoStep | drivers/power/axp_power_new/axp-regulator.c:176-197 | for a two-step regulator whose switch point is a whole number of first steps above min_uV, list_voltage(sel) is the voltage get_voltage decodes from field value sel (first step up to the switch selector, second step from the new level or the switch point above it), or -EINVAL above max_uV |
| AxpRegulator.ListDecodeSplitOffStep | drivers/power/axp_power_new/axp-regulator.c:176-197 | when the switch point falls between two first-step values, at the selector just above the switch list_voltage gives the first second-step voltage (or -EINVAL) while get_voltage still decodes min_uV + step1_uV * sel |
| AxpRegulator.IsEnabled | drivers/power/axp_power_new/axp-regulator.c:159-174 | -1 on a read error; otherwise 1 exactly when (reg & enable_mask) == enable_val, and 0 otherwise |
| AxpRegulator.EnableThenEnabled | drivers/power/axp_power_new/axp-regulator.c:141-174 | for enable_val inside enable_mask, enable succeeds and is_enabled then reports 1 |
| AxpRegulator.DisableThenDisabled | drivers/power/axp_power_new/axp-regulator.c:150-174 | for disable_val inside the mask and different from enable_val, disable succeeds and is_enabled then reports 0 |
| AxpRegulator.EnableTime | drivers/power/axp_power_new/axp-regulator.c:199-208 | 400 for regulator ids below 40, 1200 for all others |
| AxpRegulator.GetVoltageSel | drivers/power/axp_power_new/axp-regulator.c:222-238 | a read error is returned; otherwise the field value, a byte |
| AxpRegulator.VoltageSelRoundTrip | drivers/power/axp_power_new/axp-regulator.c:210-238 | set_voltage_sel(s) succeeds for s < 2^nbits, and get_voltage_sel then returns s |
| AxpRegulator.ListVoltageSel | drivers/power/axp_power_new/axp-regulator.c:240-249 | vtable[index] * 1000 for a table and index < n_voltages, otherwise -EINVAL |
| Axp22Charger.VholdCode | drivers/power/axp_power_new/axp22/axp22-charger.c:85-87 | the field code of an accepted hold voltage is (vol - 4000) / 100 and fits three bits |
| Axp22Charger.SetUsbVhold | drivers/power/axp_power_new/axp22/axp22-charger.c:78-98 | the setter always reports success |
| Axp22Charger.GetUsbVhold | drivers/power/axp_power_new/axp22/axp22-charger.c:100-109 | the decoded hold voltage is a multiple of 100 mV in [4000, 4700] |
| Axp22Charger.SetUsbIhold | drivers/power/axp_power_new/axp22/axp22-charger.c:111-125 | the setter always reports success |
| Axp22Charger.GetUsbIhold | drivers/power/axp_power_new/axp22/axp22-charger.c:127-140 | the decoded limit is 500, 900 or 0 mA, and 0 exactly when bit 1 of the field is set |
| Axp22Charger.VholdRoundTrip | drivers/power/axp_power_new/axp22/axp22-charger.c:78-109 | reading back after setting a voltage in [4000, 4700] gives it rounded down to 100 mV, with bit 6 (limit on) set |
| Axp22Charger.VholdOff | drivers/power/axp_power_new/axp22/axp22-charger.c:92-94 | setting 0 mV clears the limit-enable bit |
| Axp22Charger.IholdRoundTrip | drivers/power/axp_power_new/axp22/axp22-charger.c:111-140 | reading back after setting a current gives 0 for 0, 900 for >= 900 and 500 otherwise |
| Axp22Charger.IholdKeepsVhold | drivers/power/axp_power_new/axp22/axp22-charger.c:111-125 | setting the current limit leaves the hold voltage as it reads back |
| Axp22Charger.ChgCurCode | drivers/power/axp_power_new/axp22/axp22-charger.c:253-260 | the nibble is (cur - 300000) / 150000 saturated to [0, 15] |
| Axp22Charger.SetChgCur | drivers/power/axp_power_new/axp22/axp22-charger.c:241-263 | the setter always reports success |
| Axp22Charger.ChgCurEffect | drivers/power/axp_power_new/axp22/axp22-charger.c:241-263 | afterwards bit 7 is set iff cur != 0, the nibble is the saturated code, bits 4-6 and all other registers are unchanged |
| Axp22Charger.ChgCurEnableEffect | drivers/power/axp_power_new/axp22/axp22-charger.c:246-249 | the enable step sets bit 7 iff cur != 0 and keeps bits 4-6 and every other register |
| Axp22Charger.ChgCurNibbleEffect | drivers/power/axp_power_new/axp22/axp22-charger.c:253-260 | each of the three nibble branches leaves the code in bits 0-3 and keeps bits 4-7 |
| Axp22Charger.ChgCurInRange | drivers/power/axp_power_new/axp22/axp22-charger.c:253-255 | inside [300000, 2550000] uA the update writes the code into the nibble |
| Axp22Charger.ChgVolBits | drivers/power/axp_power_new/axp22/axp22-charger.c:270-280 | bit 6 is set for [4200, 4220) or >= 4240 mV, bit 5 for >= 4220 mV, nothing outside bits 5-6 |
| Axp22Charger.SetChgVol | drivers/power/axp_power_new/axp22/axp22-charger.c:265-285 | the setter always reports success |
| Axp22Charger.ChgVolEffect | drivers/power/axp_power_new/axp22/axp22-charger.c:265-285 | afterwards bits 5-6 hold ChgVolBits(vol); every other bit and register is unchanged |
| Axp22Charger.Adc12 | drivers/power/axp_power_new/axp22/axp22-charger.c:201-226 | a 12-bit reading is below 4096 |
| Axp22Charger.JoinBytes | drivers/power/axp_power_new/axp22/axp22-charger.c:203-213 | joining the two bytes and regrouping bits 11-4 with the low nibble gives hi * 16 + lo % 16 |
| Axp22Charger.GetVbat | drivers/power/axp_power_new/axp22/axp22-charger.c:201-216 | the battery voltage is 1.1 mV per count of the 12-bit reading, at most 4504 mV |
| Axp22Charger.VbatMonotone | drivers/power/axp_power_new/axp22/axp22-charger.c:201-216 | a larger reading never gives a lower voltage |
| Axp22Charger.GetIbat | drivers/power/axp_power_new/axp22/axp22-charger.c:218-239 | the current is the magnitude of charge minus discharge of the two readings, below 4096, and 0 exactly when they are equal |
| Axp22Charger.GetRestCap | drivers/power/axp_power_new/axp22/axp22-charger.c:155-183 | the percentage is the low seven bits of AXP22_CAP; a write-back happens exactly when the counter exceeds the maximum, and writes the maximum's bytes with bit 7 set to 0xE2 |
| Axp22Charger.RestCapWriteBackSettles | drivers/power/axp_power_new/axp22/axp22-charger.c:173-180 | the written-back counter decodes to the maximum, so the next call does not write again |
| Axp22Charger.GetBatHealth | drivers/power/axp_power_new/axp22/axp22-charger.c:185-199 | DEAD iff the inactive bit is set, OVERHEAT iff over-temperature without it, COLD iff cold without either, GOOD iff none |
| Axp22Charger.Control1Bits | drivers/power/axp_power_new/axp22/axp22-charger.c:323-329 | bit 4 is set iff the end rate is not 10%, bit 7 is clear and the other bits come from the uninitialised val |
| Axp22Charger.ChgTimeBounds | drivers/power/axp_power_new/axp22/axp22-charger.c:331-335 | the two timers are raised to 30 and 360 minutes and no other setting changes |
| Axp22Charger.PreCstFields | drivers/power/axp_power_new/axp22/axp22-charger.c:337-339 | for pre-charge times in [40, 70] and constant-current times in [360, 720] the codes land in bits 6-7 and 0-1 and nothing else is set |
| Axp22Charger.PretimeWraps | drivers/power/axp_power_new/axp22/axp22-charger.c:331-338 | a pre-charge time the clamp lets through below 40 wraps: 35 gives the 50-minute code, 30 the 40-minute one |
| Axp22Charger.Adc3Bits | drivers/power/axp_power_new/axp22/axp22-charger.c:350-372 | only bits 6-7 (by sample rate 100/200/400/800 Hz, else unchanged) and bit 2 (cleared when the TS pin is enabled) change |
| Axp22Charger.WarningNibbles | drivers/power/axp_power_new/axp22/axp22-charger.c:375-377 | the warning levels occupy the high (level 1 - 5) and low (level 2) nibbles |
| Axp22Charger.OcvBytes | drivers/power/axp_power_new/axp22/axp22-charger.c:378-410 | the OCV table has 32 bytes |
| Axp22Charger.OcvByteAt | drivers/power/axp_power_new/axp22/axp22-charger.c:378-409 | byte i is pmu_bat_para(i+1) cut to u8 |
| Axp22Charger.OnTimeBits | drivers/power/axp_power_new/axp22/axp22-charger.c:412-424 | the power-on code min(on / 1000, 3) lands in bits 6-7 and nothing else |
| Axp22Charger.PwrokBits | drivers/power/axp_power_new/axp22/axp22-charger.c:457-462 | the delay code is t / 8 - 1 below 32 ms, t / 32 + 1 from 32 to 95 ms, and wraps to 255 below 8 ms |
| Axp22Charger.LongTimeClamp | drivers/power/axp_power_new/axp22/axp22-charger.c:428-432 | the long-press time is clamped to [1000, 2500] ms and no other setting changes |
| Axp22Charger.OffEnNormal | drivers/power/axp_power_new/axp22/axp22-charger.c:440-443 | the off-level enable becomes 1 iff it was nonzero; nothing else changes |
| Axp22Charger.OffTimeCode | drivers/power/axp_power_new/axp22/axp22-charger.c:466-471 | the off-level time is replaced by its code (clamp to [4000, 10000] - 4000) / 2000 <= 3; nothing else changes |
| Axp22Charger.PowerKeyConfigBounds | drivers/power/axp_power_new/axp22/axp22-charger.c:428-471 | the power-key section leaves the long time clamped, the enable 0/1 and the off time a code, with every other setting unchanged |
| Axp22Charger.PowerKeyConfigTwice | drivers/power/axp_power_new/axp22/axp22-charger.c:466-471 | since the off time is stored back as its code, a second run of the section programs the 4 s code |
| Axp22Charger.PokSetHigh | drivers/power/axp_power_new/axp22/axp22-charger.c:412-454 | the four upper-field steps leave nothing in bits 0-1 |
| Axp22Charger.PokSetFields | drivers/power/axp_power_new/axp22/axp22-charger.c:412-476 | decoding POK_SET after the section gives back each configured setting: on time, clamped long time, enable, restart, off-time code |
| Axp22Charger.PokSetDecode | drivers/power/axp_power_new/axp22/axp22-charger.c:412-476 | on settings already in range each field of POK_SET decodes to its setting |
| Axp22Charger.PokCompose | drivers/power/axp_power_new/axp22/axp22-charger.c:412-454 | the four read-modify-write steps compose to one byte over the old bits 0-1 |
| Axp22Charger.PokStepsCompose | drivers/power/axp_power_new/axp22/axp22-charger.c:412-454 | the four steps from register value r0 leave PokHigh of the clamped configuration over r0's bits 0-1 |
| Axp22Charger.PokAfterOffTime | drivers/power/axp_power_new/axp22/axp22-charger.c:473-476 | replacing bits 0-1 with the off-time code gives the byte decoded by PokSetFields |
| Axp22Charger.RdcCode | drivers/power/axp_power_new/axp22/axp22-charger.c:540 | the RDC code is (rdc * 10000 + 5371) / 10742 when that fits in 32 bits |
| Axp22Charger.RdcRoundTrip | drivers/power/axp_power_new/axp22/axp22-charger.c:540-542 | RDC0 carries the valid bit and, with RDC1, the code modulo 2^13 |
| Axp22Charger.CapRoundTrip | drivers/power/axp_power_new/axp22/axp22-charger.c:545-552 | a capacity below 47000 mAh written at init decodes through get_rest_cap's maximum to within 2 mAh below it, with the valid bit set |
| Axp22Charger.CapCodeBounds | drivers/power/axp_power_new/axp22/axp22-charger.c:547-548 | the capacity code is below 2^15 and k * 1.456 lies within 1.456 of the capacity |
| Axp22Charger.FlagOps | drivers/power/axp_power_new/axp22/axp22-charger.c:478-535 | the init sets or clears ten flags |
| Axp22Charger.ApplyFlagStep | drivers/power/axp_power_new/axp22/axp22-charger.c:478-535 | one set or clear ORs its mask in or clears it and touches no other register |
| Axp22Charger.ApplyFlagsKeeps | drivers/power/axp_power_new/axp22/axp22-charger.c:478-535 | a flag no later operation touches survives the rest of the list |
| Axp22Charger.FlagApplied | drivers/power/axp_power_new/axp22/axp22-charger.c:478-535 | the k-th operation takes effect when its register is reachable and no later one overlaps it |
| Axp22Charger.ApplyFlagsOther | drivers/power/axp_power_new/axp22/axp22-charger.c:478-535 | registers no operation names keep their value |
| Axp22Charger.FlagOpsIndependent | drivers/power/axp_power_new/axp22/axp22-charger.c:478-535 | unless PDBC is register 0x8F no two flag operations overlap |
| Axp22Charger.Flags8FEffect | drivers/power/axp_power_new/axp22/axp22-charger.c:478-518 | reset, IRQ wakeup, N_VBUSEN, InShort and hot shutdown in 0x8F each follow their setting |
| Axp22Charger.FlagsOtherEffect | drivers/power/axp_power_new/axp22/axp22-charger.c:502-535 | the CHGLED function and type, capacity correction, charge-end regulator and battery detection flags follow their settings |
| Axp22Charger.Charger.constructor | drivers/power/axp_power_new/axp22/axp22-charger.c:316-321 | the charger starts from the given bus, configuration and register map |
| Axp22Charger.Charger.ChargeControlInit | drivers/power/axp_power_new/axp22/axp22-charger.c:323-339 | CHARGE_CONTROL1 gets Control1Bits, the timers are clamped and the codes go into CHARGE_CONTROL2 under mask 0xC2; only these two registers change |
| Axp22Charger.Charger.AdcInit | drivers/power/axp_power_new/axp22/axp22-charger.c:342-372 | the ADC enables are updated and ADC_CONTROL3 gets Adc3Bits of its old value (or of the enable byte after a failed read) |
| Axp22Charger.Charger.BatteryParamInit | drivers/power/axp_power_new/axp22/axp22-charger.c:374-410 | the warning byte is written, then the 32 OCV bytes go out in chunks from 0xC0 |
| Axp22Charger.Charger.PowerKeyInit | drivers/power/axp_power_new/axp22/axp22-charger.c:412-476 | the configuration becomes PowerKeyConfig; POK_SET holds PokSetByte and OFF_CTL bits 0-1 the delay code; only these registers change |
| Axp22Charger.Charger.PwrokDelay | drivers/power/axp_power_new/axp22/axp22-charger.c:456-463 | OFF_CTL bits 0-1 get the delay code; after a failed read val is the previous one with those bits replaced |
| Axp22Charger.Charger.PokOffTime | drivers/power/axp_power_new/axp22/axp22-charger.c:465-476 | the off time is stored back as its code and that code replaces POK_SET bits 0-1 |
| Axp22Charger.Charger.PokSetSteps | drivers/power/axp_power_new/axp22/axp22-charger.c:412-454 | the four upper-field steps leave PokHigh over the old bits 0-1 |
| Axp22Charger.Charger.PokOnTime | drivers/power/axp_power_new/axp22/axp22-charger.c:412-425 | the power-on code replaces bits 6-7 |
| Axp22Charger.Charger.PokLongTime | drivers/power/axp_power_new/axp22/axp22-charger.c:427-437 | the clamped long-press code replaces bits 4-5 |
| Axp22Charger.Charger.PokOffEn | drivers/power/axp_power_new/axp22/axp22-charger.c:439-448 | the 0/1 enable replaces bit 3 |
| Axp22Charger.Charger.PokOffFunc | drivers/power/axp_power_new/axp22/axp22-charger.c:450-454 | bit 2 is set or cleared by the restart setting |
| Axp22Charger.Charger.FlagsInit | drivers/power/axp_power_new/axp22/axp22-charger.c:478-535 | the bus is the flag list applied in order |
| Axp22Charger.Charger.RdcInit | drivers/power/axp_power_new/axp22/axp22-charger.c:537-543 | RDC0/RDC1 get the code with the valid bit exactly when a resistance is configured and the read RDC0 has bit 6 clear; otherwise nothing changes |
| Axp22Charger.Charger.CapacityInit | drivers/power/axp_power_new/axp22/axp22-charger.c:545-556 | BATCAP0/1 get the capacity code with the valid bit when a capacity is configured and bit 7 is clear, keep their value when bit 7 is set, and are zeroed when no capacity is configured |
| Axp22Charger.Charger.ChargerInit | drivers/power/axp_power_new/axp22/axp22-charger.c:316-559 | the init returns 0, leaves the configuration as the clamps and codes make it, and no bus error or reachability changes |
| ChargerDt.AxpConfig.constructor | drivers/power/axp_power_new/axp-charger-dt.c:64-66 | the static configuration record starts with every field zero |
| ChargerDt.AxpConfig.DtParse | drivers/power/axp_power_new/axp-charger-dt.c:64-473 | an unavailable node gives -EPERM with only pmu_used (set to 0) changed; otherwise 0, pmu_used = 1 and every field read in source order |
| ChargerDt.FillLookup | drivers/power/axp_power_new/axp-charger-dt.c:75-470 | after the first k reads each read field holds its value from the node and every other field keeps its old value |
| ChargerDt.ParsedField | drivers/power/axp_power_new/axp-charger-dt.c:64-473 | after a successful parse pmu_used is 1, each read field holds what the node gives for it whatever the record held before, and nothing else changes |
| ChargerDt.PresentStored | drivers/power/axp_power_new/axp-charger-dt.c:91-110 | a property present in the node is stored as read, and the current and voltage fields in mA/mV are scaled by 1000 in u32 |
| ChargerDt.MissingDefaults | drivers/power/axp_power_new/axp-charger-dt.c:75-334 | missing properties take the defaults: RDC 100, capacity 4000, long press 1500, power-ok 64, off time 6000, on time 1000 |
| ChargerDt.MissingScaled | drivers/power/axp_power_new/axp-charger-dt.c:91-303 | missing scaled fields end as 1000 times their default (300000, 1200000, 1200000, 4200000, 3300000), while pwron_vol stays 2900 |
| ChargerDt.OcvFieldDefaults | drivers/power/axp_power_new/axp-charger-dt.c:151-279 | a missing pmu_bat_paraN takes OCVREG(N-1) unscaled |
| AxpReguAttrs.FreqOfReg | drivers/power/axp_power_new/axp22/axp22-regu.c:345-347 | a register byte reports a frequency in [50, 125] MHz in steps of 5 |
| AxpReguAttrs.FrequencyShow | drivers/power/axp_power_new/axp22/axp22-regu.c:328-348 | a failed read returns the bus error; otherwise the low nibble of the register decoded as 50 + 5k MHz |
| AxpReguAttrs.FreqCode | drivers/power/axp_power_new/axp22/axp22-regu.c:368-375 | the written code is (clamp(x, 50, 100) - 50) / 5, at most 10 |
| AxpReguAttrs.FrequencyWrite | drivers/power/axp_power_new/axp22/axp22-regu.c:374-380 | the write never changes which registers are reachable or the bus error |
| AxpReguAttrs.FrequencyRoundTrip | drivers/power/axp_power_new/axp22/axp22-regu.c:328-383 | show after store reports the clamped request rounded down to 5 MHz, with the high nibble and every other register kept |
| AxpReguAttrs.FrequencyExact | drivers/power/axp_power_new/axp22/axp22-regu.c:368-375 | the reported frequency is in [50, 100] and equals the request when that is a multiple of 5 in range |
| AxpReguAttrs.FirstError | drivers/power/axp_power_new/axp22/axp22-regu.c:394-398 | the result is 0 exactly when every creation succeeded, and otherwise one of the failure codes |
| AxpReguAttrs.CreateAttrs | drivers/power/axp_power_new/axp22/axp22-regu.c:390-406 | the result is the first failure (0 if none) and, after a failure, the attributes already created are removed again |
| AxpReguAttrs.FirstFailure | drivers/power/axp_power_new/axp22/axp22-regu.c:429-439 | the index of the first failed registration: everything before it succeeded |
| AxpReguAttrs.Probe | drivers/power/axp_power_new/axp22/axp22-regu.c:408-452 | parse failure gives -EINVAL, allocation failure -ENOMEM; registrations run up to and including the first failure, which returns -1 with every earlier regulator unregistered; full success returns 0 with every regulator registered and attributes only where asked |
| AxpReguAttrs.Unwind | drivers/power/axp_power_new/axp22/axp22-regu.c:435-436 | the countdown unregisters every regulator below i, leaving none registered |
| Axp22Regu.WorkmodeShow | drivers/power/axp_power_new/axp22/axp22-regu.c:277-298 | IO ERROR exactly when the read fails, PWM exactly when the read succeeds with every mask bit set, AUTO otherwise |
| Axp22Regu.WorkmodeStore | drivers/power/axp_power_new/axp22/axp22-regu.c:300-326 | a buffer without a leading unsigned number is -EINVAL with the bus untouched; otherwise count is returned |
| Axp22Regu.WorkmodeRoundTrip | drivers/power/axp_power_new/axp22/axp22-regu.c:277-326 | show after a parsed store reports PWM for a nonzero number and AUTO for zero, and only the mode register changed |
| Axp22Regu.FrequencyStore | drivers/power/axp_power_new/axp22/axp22-regu.c:350-383 | a kstrtoint failure is returned with the bus untouched; otherwise count is returned |
| Axp22Regu.FrequencyStoreThenShow | drivers/power/axp_power_new/axp22/axp22-regu.c:328-383 | show after an accepted store of x reports 50 + 5 * floor((clamp(x, 50, 100) - 50) / 5), and only the frequency register changed |
| Axp22Regu.WantsAttrs | drivers/power/axp_power_new/axp22/axp22-regu.c:441 | a regulator gets the sysfs attributes exactly when its id is at least AXP_DCDC_ID_START |
| Axp22Regu.Probe | drivers/power/axp_power_new/axp22/axp22-regu.c:408-452 | the probe results of the shared loop, with attributes created only for DCDC regulators whose attribute creation succeeded |
| Axp152Regu.ModeBit | drivers/power/axp_power_new/axp152/axp152-regu.c:188-215 | exactly the four DCDC converters have a BUCKMODE bit |
| Axp152Regu.WorkmodeShow | drivers/power/axp_power_new/axp152/axp152-regu.c:172-218 | IO ERROR exactly when the read fails, IO ID ERROR exactly for a reachable register and a regulator that is no DCDC, PWM exactly when the converter's bit is set |
| Axp152Regu.ModeChar | drivers/power/axp_power_new/axp152/axp152-regu.c:232-235 | the mode character is buf[0] when it is '1'..'8' and buf[1] otherwise |
| Axp152Regu.WorkmodeStore | drivers/power/axp_power_new/axp152/axp152-regu.c:220-276 | the store always returns count, and writes nothing for a regulator that is no DCDC |
| Axp152Regu.WorkmodeRoundTrip | drivers/power/axp_power_new/axp152/axp152-regu.c:172-276 | for a DCDC on a reachable BUCKMODE, show after store reports PWM exactly when the chosen character asks for it, and only that converter's bit changed |
| Axp152Regu.ModeWords | drivers/power/axp_power_new/axp152/axp152-regu.c:232-248 | "PWM", "pwm" and "2" select PWM; "AUTO", "auto" and "1" select automatic mode |
| Axp152Regu.FrequencyStore | drivers/power/axp_power_new/axp152/axp152-regu.c:297-322 | the store always returns count and never changes which registers are reachable |
| Axp152Regu.FrequencyStoreThenShow | drivers/power/axp_power_new/axp152/axp152-regu.c:278-322 | show after store reports the simple_strtoul value, wrapped to s32 and clamped, rounded down to 5 MHz, and only BUCKFREQ changed |
| Axp152Regu.FrequencyWrapsNegative | drivers/power/axp_power_new/axp152/axp152-regu.c:308-315 | every number read with bit 31 set (modulo 2^32) is negative in the int, "4294967295" is -1, and every stored value below 50 reads back as 50 MHz |
| Axp152Regu.TablePartition | drivers/power/axp_power_new/axp152/axp152-regu.c:65-76 | every table entry is in exactly one of the probe's two registration lists, the _sel list exactly for entries with a voltage table |
| Axp152Regu.AttrsExactlyDcdc | drivers/power/axp_power_new/axp152/axp152-regu.c:390-396 | the regulators that get attributes are exactly those with a BUCKMODE bit |
| Axp152Regu.Probe | drivers/power/axp_power_new/axp152/axp152-regu.c:347-400 | the probe results of the shared loop over the AXP152 table, with attributes only for the DCDC converters whose attribute creation succeeded |
| Axp22Gpio.GetData | drivers/power/axp_power_new/axp22/axp22-gpio.c:25-47 | -ENXIO without a register map or for a pin other than GPIO0/1; otherwise bit 0 (as 0 or 1) for GPIO0 and bit 1 (as 0 or 2) for GPIO1 of the state register |
| Axp22Gpio.SetData | drivers/power/axp_power_new/axp22/axp22-gpio.c:49-101 | -ENXIO with the bus untouched for a pin outside GPIO0..2 or without a register map |
| Axp22Gpio.PmxSet | drivers/power/axp_power_new/axp22/axp22-gpio.c:103-148 | -ENXIO with the bus untouched without a map, for a mux other than 0/1, or for input on GPIO2 |
| Axp22Gpio.PmxGet | drivers/power/axp_power_new/axp22/axp22-gpio.c:150-190 | GPIO0/1 report 1 exactly when bits 1-2 are clear and 0 exactly when the function is 010, else -ENXIO; GPIO2 reports 1 exactly when bit 4 is clear |
| Axp22Gpio.PmxRoundTrip | drivers/power/axp_power_new/axp22/axp22-gpio.c:103-190 | on a reachable configuration register, pmx_get after an accepted pmx_set(gpio, mux) returns mux, and pmx_set returns 0 |
| Axp22Gpio.SetDataDrivesOutput | drivers/power/axp_power_new/axp22/axp22-gpio.c:64-89 | for GPIO0/1 set_data writes function 001 for a nonzero value and 000 for zero, after which the pin reads back as an output, and only its register changed |
| Axp22Gpio.SetDataGpio2 | drivers/power/axp_power_new/axp22/axp22-gpio.c:73-94 | for GPIO2 set_data returns 0 and leaves the pin an output whose status bit 2 is set exactly for a nonzero value; only bit 4 of the configuration register (cleared) and bit 2 of the status register change, and no other register does |
| Tve.SetThenClearBit0 | drivers/video/sunxi/disp2/tv/de_tve_sun8iw11.c:214-262 | forcing the DAC and releasing it again leaves bit 0 of register 0x300 clear and every other bit as it was |
| Tve.Reading | drivers/video/sunxi/disp2/tv/de_tve_sun8iw11.c:221 | the error field of a measurement is a ten-bit value |
| Tve.SignMag | drivers/video/sunxi/disp2/tv/de_tve_sun8iw11.c:225-228 | a ten-bit reading decodes to +(r mod 512) when bit 9 is set and -(r mod 512) otherwise, within [-511, 511] |
| Tve.EncodeRoundTrip | drivers/video/sunxi/disp2/tv/de_tve_sun8iw11.c:256-261 | encoding every value in [-511, 511] fits ten bits and decodes back to the value |
| Tve.DecodeRoundTrip | drivers/video/sunxi/disp2/tv/de_tve_sun8iw11.c:225-261 | decoding then encoding gives back every nonzero ten-bit reading; the negative zero 0x000 is the one that comes back as +0 |
| Tve.AutoIndex | drivers/video/sunxi/disp2/tv/de_tve_sun8iw11.c:231-244 | reading 0 is chosen exactly when its summed distance is strictly smallest, reading 1 likewise, and reading 2 otherwise |
| Tve.AutoIsMedian | drivers/video/sunxi/disp2/tv/de_tve_sun8iw11.c:231-244 | for three distinct readings the auto value is their median |
| Tve.TieTakesReadingTwo | drivers/video/sunxi/disp2/tv/de_tve_sun8iw11.c:239-244 | whenever two readings agree the third reading is taken; with readings 0 and 1 equal that is the odd one out, not the agreed value |
| Tve.Optimum | drivers/video/sunxi/disp2/tv/de_tve_sun8iw11.c:251-254 | the optimum is one of the two values, and the auto value exactly when it lies within 100 of the factory value |
| Tve.DacErrSet | drivers/video/sunxi/disp2/tv/de_tve_sun8iw11.c:231-261 | the written error value is a ten-bit code that decodes to the optimum of the auto value of the three decoded readings and the decoded factory value |
| Tve.CaliWord | drivers/video/sunxi/disp2/tv/de_tve_sun8iw11.c:63 | the calibration word holds the low 16 bits of cali in its upper half-word and 0x0c00 below, with the measurement bits 0 and 4 clear |
| Tve.DacStatus | drivers/video/sunxi/disp2/tv/de_tve_sun8iw11.c:174-179 | the status is the low two bits of register 0x038, in [0, 3] |
| Tve.InitDacSet | drivers/video/sunxi/disp2/tv/de_tve_sun8iw11.c:62 | the DAC level is 784 * 1100 / (1030 + offset) truncated to u32 |
| Tve.InitDacSetNominal | drivers/video/sunxi/disp2/tv/de_tve_sun8iw11.c:62 | without an offset the level is 837 |
| Tve.Encoder.constructor | drivers/video/sunxi/disp2/tv/de_tve_sun8iw11.c:49-54 | the encoder starts from the given register file |
| Tve.Encoder.Init | drivers/video/sunxi/disp2/tv/de_tve_sun8iw11.c:60-68 | registers 0x304, 0x300, 0x008 and 0x000 get the calibration word, the DAC level shifted to the upper half-word, the DAC setting and the clock gate; nothing else changes |
| Tve.Encoder.Measure | drivers/video/sunxi/disp2/tv/de_tve_sun8iw11.c:217-228 | one measurement round leaves every register as it was and returns the decoded reading |
| Tve.Encoder.DacAutoCali | drivers/video/sunxi/disp2/tv/de_tve_sun8iw11.c:197-266 | the registers end as the set-up writes, the chosen error code in 0x304, the DAC released and plug detection enabled leave them |
| Tve.Encoder.StartCali | drivers/video/sunxi/disp2/tv/de_tve_sun8iw11.c:209-214 | clock on, detection off, DAC setting, factory word and DAC forced, in that order |
| Tve.Encoder.MeasureAll | drivers/video/sunxi/disp2/tv/de_tve_sun8iw11.c:215-229 | three rounds leave the registers unchanged and return the three decoded readings in order |
| Tve.Encoder.FinishCali | drivers/video/sunxi/disp2/tv/de_tve_sun8iw11.c:261-263 | the chosen code goes to 0x304, bit 0 of 0x300 is cleared and 0x030 is set to 1 |
| Tve.SetBitsClear | drivers/video/sunxi/disp2/tv/de_tve_sun8iw11.c:217-223 | setting and clearing bits 4 and 0 restores a word that had them clear |
| DrvTv.VideoTimings | drivers/video/sunxi/disp2/tv/drv_tv.c:14-19 | the table has two timings, NTSC first and PAL second |
| DrvTv.FirstMatch | drivers/video/sunxi/disp2/tv/drv_tv.c:183-192 | -1 exactly when no timing has the mode; otherwise an index whose timing has the mode and before which none does |
| DrvTv.GetVideoInfo | drivers/video/sunxi/disp2/tv/drv_tv.c:183-192 | the scan returns the index of the first timing with the mode, -1 when there is none |
| DrvTv.VideoInfoOfTable | drivers/video/sunxi/disp2/tv/drv_tv.c:14-19 | in the NTSC/PAL table the NTSC mode is found at 0, a distinct PAL mode at 1 and any other mode nowhere |
| DrvTv.EnableDisableIdempotent | drivers/video/sunxi/disp2/tv/drv_tv.c:390-417 | enable and disable act only on a change of state: a second call changes nothing and programs nothing, enable leaves the flag set and disable clear, and an enable/disable pair reaches the hardware at least once |
| DrvTv.SuspendResumeRoundTrip | drivers/video/sunxi/disp2/tv/drv_tv.c:419-451 | a used running screen is suspended and resumed back to itself with detection off, tve_clk_disable's two prepare-enables (screen clock, then encoder clock), tve_clk_enable's two (encoder clock, then screen clock), low init and detection on in that order; an unused screen is never touched; suspend and resume are idempotent |
| DrvTv.SuspendResumeClockReferences | drivers/video/sunxi/disp2/tv/drv_tv.c:228-234 | tve_clk_disable prepare-enables instead of releasing, so one suspend and resume of a used running screen adds two enable references to the encoder clock and to the screen's clock, and touches no other clock |
| DrvTv.DacHpd | drivers/video/sunxi/disp2/tv/drv_tv.c:173-180 | CVBS is reported exactly when DAC 0 carries composite and the status is exactly 1 (a status above 1 counts as unconnected) |
| DrvTv.TvInfo.constructor | drivers/video/sunxi/disp2/tv/drv_tv.c:259-321 | the driver state holds the NTSC/PAL table, the screens, the screen count and the DAC sources, with no hardware call yet |
| DrvTv.TvInfo.GetMode | drivers/video/sunxi/disp2/tv/drv_tv.c:336-342 | -1 for a screen out of range, else that screen's mode |
| DrvTv.TvInfo.SetMode | drivers/video/sunxi/disp2/tv/drv_tv.c:344-357 | a mode of at least DISP_TV_MODE_NUM or a screen out of range gives -1 and stores nothing; otherwise only that screen's mode is replaced and reads back |
| DrvTv.TvInfo.GetDacHpd | drivers/video/sunxi/disp2/tv/drv_tv.c:165-181 | out of range exactly for a screen index at least tv_number; otherwise CVBS exactly when DAC 0 is composite and the encoder status is 1 |
| DrvTv.TvInfo.ModeSupport | drivers/video/sunxi/disp2/tv/drv_tv.c:453-470 | -1 for a screen out of range; otherwise 1 exactly when some timing has the mode and 0 when none has |
| DrvTv.TvInfo.GetVideoTimingInfo | drivers/video/sunxi/disp2/tv/drv_tv.c:365-388 | -1 without a timing for a screen out of range; otherwise 0 with the first timing of the screen's mode, or -1 without a timing when none has it |
| DrvTv.TvInfo.Enable | drivers/video/sunxi/disp2/tv/drv_tv.c:390-403 | -1 out of range with nothing changed; otherwise 0, the screen enabled and the mode set and encoder opened if it was not already enabled |
| DrvTv.TvInfo.Disable | drivers/video/sunxi/disp2/tv/drv_tv.c:405-417 | -1 out of range with nothing changed; otherwise 0, the screen disabled and the encoder closed if it was enabled |
| DrvTv.TvInfo.Suspend | drivers/video/sunxi/disp2/tv/drv_tv.c:419-433 | -1 out of range with nothing changed; otherwise 0, and a used running screen is marked suspended with detection turned off and tve_clk_disable's two clock prepare-enables recorded |
| DrvTv.TvInfo.Resume | drivers/video/sunxi/disp2/tv/drv_tv.c:435-451 | -1 out of range with nothing changed; otherwise 0, and a used suspended screen is resumed with tve_clk_enable's two clock prepare-enables, low init and detection on |
| VirtualConsumer.VoltageCalls | drivers/power/axp_power_new/virtual.h:37-61 | regulator_set_voltage is called exactly for a nonzero ordered window; ops->enable exactly for a nonzero window unless that set failed; ops->disable exactly when a bound is zero; at most two calls, the set first |
| VirtualConsumer.CurrentStep | drivers/power/axp_power_new/virtual.h:63-91 | the limit is set exactly for a nonzero upper bound at or above the lower one, and a failed set stops there; the flag changes only to 1 after a successful enable with a nonzero upper bound, or to 0 after a successful disable with a zero bound |
| VirtualConsumer.EnableThenDisable | drivers/power/axp_power_new/virtual.h:76-90 | with a zero lower bound and a nonzero upper bound a disabled consumer is enabled and disabled again in the same call |
| VirtualConsumer.CurrentWindowEnables | drivers/power/axp_power_new/virtual.h:67-82 | a nonzero ordered current window enables a disabled consumer and leaves an enabled one enabled with only the limit call |
| VirtualConsumer.ParseMode | drivers/power/axp_power_new/virtual.h:217-228 | the text selects fast, normal, idle or standby by the first of those words that starts it, and nothing when none does |
| VirtualConsumer.ModeName | drivers/power/axp_power_new/virtual.h:196-207 | an unknown mode prints "unknown" and only an unknown mode does |
| VirtualConsumer.ModeRoundTrip | drivers/power/axp_power_new/virtual.h:191-239 | what show_mode writes reads back through set_mode as the same mode, and selects nothing for an unknown mode |
| VirtualConsumer.ParsedModeIsPrefix | drivers/power/axp_power_new/virtual.h:217-224 | a selected mode is shown as a word that starts the text |
| VirtualConsumer.StrictStrtol | drivers/power/axp_power_new/virtual.h:107 | on a 32-bit long strict_strtol behaves as kstrtoint; any accepted value fits a 64-bit long |
| VirtualConsumer.Consumer.constructor | drivers/power/axp_power_new/virtual.h:26-35 | the consumer data starts zeroed, with no regulator call |
| VirtualConsumer.Consumer.UpdateVoltageConstraints | drivers/power/axp_power_new/virtual.h:37-61 | only the call log changes, by the calls VoltageCalls lists |
| VirtualConsumer.Consumer.UpdateCurrentLimitConstraints | drivers/power/axp_power_new/virtual.h:63-91 | the enabled flag and the call log change as CurrentStep says; the bounds and the mode are untouched |
| VirtualConsumer.Consumer.ShowMinUv | drivers/power/axp_power_new/virtual.h:93-99 | the lower bound is overwritten with regulator_get_voltage and that value is shown |
| VirtualConsumer.Consumer.SetMinUv | drivers/power/axp_power_new/virtual.h:101-116 | rejected text changes nothing; accepted text becomes the lower bound (cut to int) and the voltage constraints are applied; count is returned either way |
| VirtualConsumer.Consumer.SetMaxUv | drivers/power/axp_power_new/virtual.h:125-141 | accepted text refreshes the lower bound from regulator_get_voltage, becomes the upper bound and applies the voltage constraints; rejected text changes nothing |
| VirtualConsumer.Consumer.SetMinUa | drivers/power/axp_power_new/virtual.h:150-165 | accepted text becomes the lower current bound and the current constraints are applied; rejected text changes nothing |
| VirtualConsumer.Consumer.SetMaxUa | drivers/power/axp_power_new/virtual.h:174-189 | accepted text becomes the upper current bound and the current constraints are applied; rejected text changes nothing |
| VirtualConsumer.Consumer.ShowMode | drivers/power/axp_power_new/virtual.h:191-208 | the shown text parses back to the stored mode, or to nothing for an unknown mode |
| VirtualConsumer.Consumer.SetModeAttr | drivers/power/axp_power_new/virtual.h:210-239 | text starting with none of the four words changes nothing; otherwise regulator_set_mode is called and the mode stored only when it succeeds, after which the stored mode's name starts the text |
| Ring.Next | drivers/video/sunxi/disp2/disp/de/eink_buffer_manager.c:204 | advancing a cursor below n stays below n and is (i + 1) mod n |
| Ring.Dist | drivers/video/sunxi/disp2/disp/de/eink_buffer_manager.c:42-58 | the step count from one cursor to another is below n, leads there, and is 0 exactly for equal cursors |
| EinkBuffer.Count | drivers/video/sunxi/disp2/disp/de/eink_buffer_manager.c:32-63 | at most n - 2 images are ever queued |
| EinkBuffer.Queued | drivers/video/sunxi/disp2/disp/de/eink_buffer_manager.c:65-89 | the queued images number Count |
| EinkBuffer.EmptyMeansNoneQueued | drivers/video/sunxi/disp2/disp/de/eink_buffer_manager.c:49-63 | the empty test in == out + 1 (mod n) holds exactly when nothing is queued |
| EinkBuffer.FullMeansAllQueued | drivers/video/sunxi/disp2/disp/de/eink_buffer_manager.c:32-47 | the full test in + 1 == out (mod n) holds exactly when n - 2 images are queued |
| EinkBuffer.InitialQueueEmpty | drivers/video/sunxi/disp2/disp/de/eink_buffer_manager.c:267-273 | the initial cursors in = 1, out = 0 are a consistent empty queue |
| EinkBuffer.EnqueueAppends | drivers/video/sunxi/disp2/disp/de/eink_buffer_manager.c:168-204 | writing the slot at in on a queue that is not full and advancing in appends that slot to the queued images |
| EinkBuffer.FullWriteNotQueued | drivers/video/sunxi/disp2/disp/de/eink_buffer_manager.c:202-204 | on a full queue the slot at in is not queued, so overwriting it with the cursors kept leaves the queued images as they were |
| EinkBuffer.DequeueDrops | drivers/video/sunxi/disp2/disp/de/eink_buffer_manager.c:239-244 | advancing out past a non-empty queue, whatever the released slot becomes, drops exactly the oldest queued image |
| EinkBuffer.CurrentIsOldest | drivers/video/sunxi/disp2/disp/de/eink_buffer_manager.c:74-75 | the slot after out is the oldest queued image |
| EinkBuffer.CurrentRewriteKeepsRest | drivers/video/sunxi/disp2/disp/de/eink_buffer_manager.c:65-89 | rewriting the current image changes the oldest queued image and no other |
| EinkBuffer.Written | drivers/video/sunxi/disp2/disp/de/eink_buffer_manager.c:160-200 | the written slot is used with the request's mode and keeps its geometry; it takes the new picture when one is given; a rectangle request is a local update of its area (to be computed exactly when the area is all zero); otherwise a full-screen INIT update for the init mode and GLOBAL for any other |
| EinkBuffer.Released | drivers/video/sunxi/disp2/disp/de/eink_buffer_manager.c:239-243 | the released slot is free, global, in init mode and marked for area calculation, keeping its picture, area and geometry |
| EinkBuffer.BufferManager.constructor | drivers/video/sunxi/disp2/disp/de/eink_buffer_manager.c:254-303 | an empty queue with in = 1 and out = 0, and every slot free, sized to the panel with alignment 4, in init mode and filled white |
| EinkBuffer.BufferManager.IsFull | drivers/video/sunxi/disp2/disp/de/eink_buffer_manager.c:32-47 | full exactly when n - 2 images are pending |
| EinkBuffer.BufferManager.IsEmpty | drivers/video/sunxi/disp2/disp/de/eink_buffer_manager.c:49-63 | empty exactly when no image is pending |
| EinkBuffer.BufferManager.GetCurrentImage | drivers/video/sunxi/disp2/disp/de/eink_buffer_manager.c:65-89 | NULL exactly for a read cursor out of range; otherwise the oldest pending image when there is one |
| EinkBuffer.BufferManager.GetLastImage | drivers/video/sunxi/disp2/disp/de/eink_buffer_manager.c:91-114 | NULL exactly for a read cursor out of range; otherwise the slot at out, the image on the panel |
| EinkBuffer.BufferManager.QueueImage | drivers/video/sunxi/disp2/disp/de/eink_buffer_manager.c:116-214 | -EINVAL with nothing changed for a write cursor out of range; otherwise 0, the slot at in written, and the pending images extended by it unless the queue was full, in which case they are unchanged and in stays |
| EinkBuffer.BufferManager.DequeueImage | drivers/video/sunxi/disp2/disp/de/eink_buffer_manager.c:216-252 | -EINVAL for a read cursor out of range and -EBUSY on an empty queue, with nothing changed; otherwise 0, the slot at out released and the oldest pending image dropped |
| EinkManager.WaveQueue.constructor | drivers/video/sunxi/disp2/disp/de/disp_eink_manager.c:1236-1238 | the wave-data ring starts with both cursors at 0 and no frame waiting |
| EinkManager.WaveQueue.Count | drivers/video/sunxi/disp2/disp/de/disp_eink_manager.c:154-180 | at most n - 1 decoded frames ever wait on a ring of n buffers |
| EinkManager.WaveQueue.IsFull | drivers/video/sunxi/disp2/disp/de/disp_eink_manager.c:154-166 | the test head + 1 == tail (mod n) holds exactly when n - 1 frames wait |
| EinkManager.WaveQueue.IsEmpty | drivers/video/sunxi/disp2/disp/de/disp_eink_manager.c:168-180 | the test head == tail holds exactly when no frame waits |
| EinkManager.WaveQueue.RequestForDisplay | drivers/video/sunxi/disp2/disp/de/disp_eink_manager.c:277-299 | NULL exactly when no frame waits; otherwise the buffer at tail, the oldest decoded frame |
| EinkManager.WaveQueue.RequestForDecode | drivers/video/sunxi/disp2/disp/de/disp_eink_manager.c:302-326 | NULL exactly when the ring is full; otherwise the buffer at head, the next free one |
| EinkManager.WaveQueue.Queue | drivers/video/sunxi/disp2/disp/de/disp_eink_manager.c:328-353 | -EBUSY with the ring unchanged when full; otherwise 0, head advances and one more frame waits; tail never moves |
| EinkManager.WaveQueue.Dequeue | drivers/video/sunxi/disp2/disp/de/disp_eink_manager.c:355-380 | -EBUSY with the ring unchanged when empty; otherwise 0, tail advances and one frame fewer waits; head never moves |
| EinkManager.WaveQueue.Clear | drivers/video/sunxi/disp2/disp/de/disp_eink_manager.c:120-127 | both cursors back at 0, which leaves no frame waiting |
| EinkManager.NextFresh | drivers/video/sunxi/disp2/disp/de/disp_eink_manager.c:517-523 | the display-frame counter stays a 32-bit value |
| EinkManager.DisplayCycle | drivers/video/sunxi/disp2/disp/de/disp_eink_manager.c:508-571 | over an update of total frames the counter counts the shown frames up to total - 1 and the total-th frame returns it to 0 |
| EinkManager.FirstFramesCalls | drivers/video/sunxi/disp2/disp/de/disp_eink_manager.c:661-681 | starting the panel always enables the LCD, whatever frames are ready |
| EinkManager.AreaReported | drivers/video/sunxi/disp2/disp/de/disp_eink_manager.c:448-464 | an image whose area is to be calculated takes the area the hardware reports; any other image keeps its area, and nothing else of the image changes |
| EinkManager.Manager.constructor | drivers/video/sunxi/disp2/disp/de/disp_eink_manager.c:1182-1238 | counters and index numbers 0, no fresh index, disabled, 28 degrees, continuous flushing on, display finished, no index finished, first enable pending, nothing sent to the hardware |
| EinkManager.Manager.WriteEdma | drivers/video/sunxi/disp2/disp/de/disp_eink_manager.c:1032-1049 | -EBUSY with nothing dequeued or sent when no frame waits; otherwise the oldest frame's buffer is programmed into the EDMA and marked ready, and exactly that frame leaves the ring; the scalar state is untouched |
| EinkManager.Manager.WriteEdmaOnce | drivers/video/sunxi/disp2/disp/de/disp_eink_manager.c:1051-1069 | as WriteEdma, with the EDMA configured and started for the buffer of the oldest frame |
| EinkManager.Manager.PollIndexFinish | drivers/video/sunxi/disp2/disp/de/disp_eink_manager.c:437-446 | the poll sees the finish flag exactly when it was already raised or the interrupt raises it within the 200 waits |
| EinkManager.Manager.CalculateIndexData | drivers/video/sunxi/disp2/disp/de/disp_eink_manager.c:382-475 | -EINVAL with nothing changed without a current image or with mismatched index flags; otherwise the index is calculated into the other buffer, and the result is 0 with the index fresh, the flag consumed and the current image's area updated when the finish is seen, else -EBUSY with only new_index changed; in every case the scalar state, the calls and the current image are those PrivAfterIndex, IndexCalls and CurrentAfterIndex give |
| EinkManager.Manager.CalculateIndexDropped | drivers/video/sunxi/disp2/disp/de/disp_eink_manager.c:802 | the calculation the detect thread starts leaves the scalar state PrivAfterIndex gives, whatever it returns: with the index flags both 0 or both 1 new_index flips to 1 - old_index, and when the finish is seen the flag is consumed and the index becomes fresh; otherwise nothing changes; the hardware sees the index start when the index is ready, then the update-area read when the finish was seen and the image asks for a window, and nothing else; the current image takes the reported area exactly in that case and every other queued image is untouched |
| EinkManager.IndexedPrivFrame | drivers/video/sunxi/disp2/disp/de/disp_eink_manager.c:405-462 | the index calculation changes no scalar field besides new_index, index_fresh and the finish flag |
| EinkManager.Manager.DisplayOneFrame | drivers/video/sunxi/disp2/disp/de/disp_eink_manager.c:508-571 | the counter advances as NextFresh; the frame that completes the update resets it, empties the wave-data ring, marks the display finished and closes the panel; the frame before it does nothing more; every other frame schedules the sync tasklet |
| EinkManager.Manager.DecodeFinish | drivers/video/sunxi/disp2/disp/de/disp_eink_manager.c:573-593 | 1 exactly when every frame of the update is decoded, which restarts the decode counter; otherwise 0 with nothing changed |
| EinkManager.Manager.DecodeCount | drivers/video/sunxi/disp2/disp/de/disp_eink_manager.c:644-659 | the decoded frame is queued unless the ring is full (the ring count grows by one exactly then), the pipeline list is updated at the panel temperature, an inserted pipeline adds its frames to the 32-bit total, and the decode counter advances, its old value returned |
| EinkManager.Manager.WaitForDecodeBuffer | drivers/video/sunxi/disp2/disp/de/disp_eink_manager.c:734-744 | the free buffer when there is one, after no retries; otherwise NULL after all 100 retries |
| EinkManager.Manager.DecodeNext | drivers/video/sunxi/disp2/disp/de/disp_eink_manager.c:705-757 | a finished update restarts the decode counter and ends the fresh index; otherwise the next frame is decoded from the new index into the next free buffer, and an inserted pipeline switches old_index and ends the fresh index |
| EinkManager.Manager.ShowFirstFrames | drivers/video/sunxi/disp2/disp/de/disp_eink_manager.c:661-681 | only the third decoded frame starts the panel: up to two waiting frames are sent to it and leave the ring, in FirstFramesCalls order |
| EinkManager.Manager.DecodeTask | drivers/video/sunxi/disp2/disp/de/disp_eink_manager.c:623-760 | the decode work as a whole: the frame queued, total and decode counters updated with 32-bit wrap-around, and either the update finished or the next decode started, with the index switch of an inserted pipeline; the hardware calls are exactly the pipeline-list update at the panel temperature, on the third frame the start of the first two queued frames (the ring then holding two frames fewer), and, unless total now equals the decode count, a decode into the next free wave buffer (NULL when none) from the new index buffer |
| EinkManager.Manager.DecodeRest | drivers/video/sunxi/disp2/disp/de/disp_eink_manager.c:661-757 | after the counter bookkeeping: the panel is started on the third frame with up to two waiting frames taken off the ring; then the update ends (decode counter 0, index consumed) or the next frame is decoded into the next free wave buffer from index_paddr[new_index], an inserted pipeline switching old_index and consuming the index; the calls are exactly those of the two parts in order |
| EinkManager.Manager.StartUpdate | drivers/video/sunxi/disp2/disp/de/disp_eink_manager.c:821-874 | the scalar state becomes UpdatePriv of the old one: with no decode running the display is marked busy, total set to the update's frames, old_index switched to new_index and, unless the wave-data ring is full, the index consumed, and the ring blocks the start exactly when full; with a decode running the scalar state is unchanged and the pipeline only configured; the hardware calls are exactly the overlap check, then either configure-and-enable at the panel temperature followed by a decode into the free wave buffer from the new index buffer (none when the ring is full), or the configure alone; the image queue then drops exactly its oldest image and stays consistent |
| EinkManager.Manager.DetectFreshStep | drivers/video/sunxi/disp2/disp/de/disp_eink_manager.c:762-879 | a pass is skipped, with nothing changed, exactly when the image queue is empty, the pipeline list is busy, the last index is still fresh or flushing is off; a pass that is not skipped leaves the scalar state of the calculation followed by the update start, every other field unchanged, and a calculation that finished while a decode is running leaves index_fresh set; a pass that completes on a consistent image queue consumes exactly its oldest image; its hardware calls are those of the index calculation followed by those of the update start for the current image as the calculation left it, decoding from the index buffer the calculation selected |
| EinkManager.FreshIndexParks | drivers/video/sunxi/disp2/disp/de/disp_eink_manager.c:792-870 | with a decode running, the update start keeps the state a finished calculation left, so index_fresh stays set and the detect-fresh thread waits until the decode work clears it |
| EinkManager.Manager.InterruptProc | drivers/video/sunxi/disp2/disp/de/disp_eink_manager.c:246-273 | query 1 raises the index-finish flag, query 0 schedules the decode work, any other query does nothing |
| EinkManager.Manager.Enable | drivers/video/sunxi/disp2/disp/de/disp_eink_manager.c:898-960 | an enabled manager returns 0 with nothing done; a failed thread returns its error and leaves the manager disabled; otherwise the engine is brought up in order, the manager is enabled, and only the first enable loads the waveform, freeing it again on failure, its result being the waveform's on the first enable and the EDMA's after |
| EinkManager.Manager.Disable | drivers/video/sunxi/disp2/disp/de/disp_eink_manager.c:962-986 | returns 0, marks the manager disabled and empty, and shuts down interrupt, engine, clock and IRQ in that order |
| EinkManager.Manager.UpdateImage | drivers/video/sunxi/disp2/disp/de/disp_eink_manager.c:881-896 | the manager ends enabled when it was or the thread starts, and the image is queued as QueueImage does: -EINVAL for a bad write cursor, otherwise the slot written and appended to the pending images unless the queue is full |
| EinkManager.GetTemperature | drivers/video/sunxi/disp2/disp/de/disp_eink_manager.c:69-80 | 28 degrees without a manager |
| EinkManager.SetTemperature | drivers/video/sunxi/disp2/disp/de/disp_eink_manager.c:988-1013 | -1 without a manager; otherwise 0, the temperature reads back as set and nothing else changes |

## Left out

- Headers (axp-core.h, axp-charger.h, axp-gpio.h, axp22-gpio.h, drv_tv.h, de_tvec.h, de_eink.h) are not part of this model. The constants they define are parameters, and enumeration members that the code only sets by zero-filling are taken to be the first ones.
- The I2C, RSB and arisc transports are a register-file value whose faulty addresses fail with the transport's error. Bus locking, `arisc_rsb_*` and `i2c_smbus_*` themselves are not modelled.
- Hardware and framework calls are recorded or given as parameters, not performed:
  - `disp_al_*`, `TVE_WUINT32` and the encoder's other register writes;
  - clocks, IRQ registration, `schedule_work` and tasklets;
  - kernel threads;
  - the display pipeline manager and the format-convert unit;
  - regulator-framework calls.
- Concurrency is not modelled. Each event handler is one sequential step. Not modelled:
  - spinlocks and mutexes;
  - the interleaving of the detect-fresh thread, the decode work and the interrupts;
  - what the interrupt handler does between two polls, which is a parameter `irqBy`.
- Busy-waits on hardware are not modelled:
  - the endless loop of `eink_detect_fresh_thread`, its `kthread_should_stop` test and its 1 ms sleeps;
  - the overlap wait on the display-finish flag (disp_eink_manager.c:807-816);
  - the scan-line waits of `sync_task` and `write_edma_second`;
  - the unbounded retry for a free wave-data buffer in the detect-fresh step, which ends as `Blocked` when the ring is full.
- AxpRegulator.DvmWait keeps only how the DVM status poll of `axp_set_voltage` ends: 0, or the error of a failing read. The wait for bit 7 is not modelled.
- `axp_irq_chip_register`'s IRQ setup is not modelled. Its loop that disables every interrupt, `axp_irq_chip_unregister` and `axp_irq` (the top half that only schedules the work) are left out too.
- `axp_regs_show`, `axpdebug_store` and `axpdebug_show` are left out. They format register dumps or set a debug level.
- `axp_mfd_add_devices`, `axp_regmap_init_*`, every driver's probe/remove/suspend/resume/shutdown plumbing and module init are left out. The exception is the registration loops of the two regulator probes. `axp_regulator_register`, `axp_regulator_sel_register` and `regu_device_tree_do_parse` are left out too: they need `sscanf`, `kzalloc` and the unseen `axp_check_sys_id`.
- The AXP22 charger's AC and USB voltage/current getters and its AC hold setters and getters are left out. They only return 0. The charger's interrupt handlers and `power_supply` glue are left out as well.
- virtual.h: ShowMinUv stands for all four numeric shows. `show_max_uv`, `show_min_ua` and `show_max_ua` print their field in the same way and are not modelled one by one.
- drv_tv.c: these are not modelled:
  - `tv_get_input_csc` and `tv_set_enhance_mode`, which forward a constant or a call;
  - the hot-plug detect thread and switch reporting;
  - clock setup;
  - `tv_init`'s device-tree reads, beyond the screen state they produce;
  - the character-device file operations.
- de_tve_sun8iw11.c: `tve_low_open`, `close`, `set_tv_mode`, `set_vga_mode`, `enhance`, `dac_autocheck_*`, `resync_*` and `get_sid` are left out. They are fixed register-write sequences with no computed value.
- Allocation is not modelled: `disp_init_eink`'s buffer allocation, `malloc_wavedata_buffer` and the image memory of the slots. Buffer addresses are inputs, taken non-zero, and a slot records only which picture was last copied into it. Image copying by the format-convert unit is a recorded call.
- Debug and timing instrumentation under `EINK_FLUSH_TIME_TEST`, `__EINK_TEST__` and `DEBUG_CHANGE_DATA` is left out. The one exception is the `flush_continue_flag` test.
- `sprintf` output is modelled only as the token or number a handler reports.
- The kernel string parsers (`simple_strtoul`, `kstrtoint`, `kstrtol`, `sscanf("%u")`) are library code that is not part of this model. They are modelled in `parse.dfy` from their documented behaviour. VirtualConsumer's `strict_strtol` takes the width of `long` as a parameter (`long64`).
- EinkManager.Manager.Enable keeps the `first` flag of `eink_enable` in the manager's private state. In the source it is a function-level `static`, shared by every manager. `disp_init_eink` allocates `MAX_EINK_ENGINE` managers. The two agree as long as only one manager is ever enabled, as the source assumes: its decode work and its scan-line task always use `disp_get_eink_manager(0)`.
- `tve_clk_enable` stops after a failing `clk_prepare_enable`. Clock failures are not modelled, so both calls are always recorded.
- EinkManager counters are modelled as unsigned 32-bit values with wrap-around. Their declaration is not part of this model.
- Axp22Charger.Charger.ChargerInit states only that it returns 0, what the configuration record becomes, and that the bus's fault set and error code stay as they were. The register-level effects are stated by the step methods it calls, such as ChargeControlInit and PowerKeyInit, and by their lemmas.
- Axp22Gpio.SetData states only its -ENXIO path. What a valid call writes, and that the pin then reads back as an output, is stated by the lemmas SetDataDrivesOutput and SetDataGpio2.
- Axp22Gpio.PmxSet states only its -ENXIO path. That a valid mux reads back is stated by the lemma PmxRoundTrip.
- EinkManager.NextFresh states only that the counter stays 32-bit. Its behaviour over a whole update is stated by DisplayCycle.
