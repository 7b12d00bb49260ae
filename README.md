# RCDroneCamera in Dafny

This project models the RCDroneCamera system in Dafny and proves properties of the model. The system has two sides.

On the **drone**:

- A camera service streams video over wifibroadcast, records video files and takes photos.
- An RC service watches two radio-control channels and the arm switch, and drives the camera through them.
- A health logger samples CPU, memory, temperature and the firmware's throttle report. It writes each sample as a CSV line, and the MAVLink logger sends part of it to the ground.

On the **ground station**:

- A display client decodes the wifibroadcast statistics records into the display data.
- A MAVLink listener turns the drone's status text into a temperature section.
- A push button cycles through the data screens.
- A 96x64 RGB OLED panel, driven over SPI and two GPIO lines, shows the current screen.

Modules, one per file:

| file | module | models |
|---|---|---|
| `wrappers.dfy` | `Wrappers` | `Option`, `Result` and the Python exceptions the core raises (`KeyError`, `IndexError`, `ValueError`) |
| `gpio.dfy` | `Gpio` | the two GPIO line levels |
| `displaydata.dfy` | `DisplayData` | the display data dictionary and its four optional sections |
| `bands.dfy` | `Bands` | `human_rate`, `human_rssi`, `human_snr`, `human_packet_loss` |
| `screens.dfy` | `Screens` | what the overview, packet, flow and antenna screens decide to draw |
| `templog.dfy` | `TempLog` | the temperature history screen and its 60-sample deque |
| `display.dfy` | `Display` | the circular list of screens, `next_screen` and the `data` setter |
| `decoder.dfy` | `Decoder` | the statistics-record handler (`stringReceived`, `_handle_video_rx`) |
| `oled.dfy` | `Oled` | the SPI/GPIO display controller and the OLED driver, as a trace of hardware events |
| `button.dfy` | `Button` | the button polling loop |
| `textsplit.dfy` | `TextSplit` | Python's `str.split(sep)` and `sep.join` |
| `throttle.dfy` | `Throttle` | `vcgencmd get_throttled` report decoding |
| `health.dfy` | `Health` | `log_health` and the CSV log writer |
| `mavlinklogger.dfy` | `MavlinkLogger` | the drone's status-text entry |
| `mavlink.dfy` | `MavLink` | the ground station's status-text listener |
| `camera.dfy` | `Camera` | the camera service |
| `rc.dfy` | `Rc` | the RC service |

## How the source is modelled

The source sometimes holds two copies of one component. Each pair below is modelled once.

- `human_*`: the copy in `wfb_client/utils.py` and the copy at the top of `wfb_client/data_display.py` are identical.
- Throttle decoding: `health_check/cpu_throttle.py` and `health_check.py` hold identical copies.
- The statistics handler: `wfb_client/client_factory.py` and the older `wfb_client.py` differ only in how they dispatch. `Decoder.RoutesAgree` proves that the two dispatches agree.
- The camera service: `main.py` and `src/camera.py` differ, in what is modelled, only in the wifibroadcast check before a stream starts. Their encoder settings, outputs and constructor arguments also differ, but those are not modelled. That check is the `checksWfb` flag of `Camera.CameraService`.
- The RC service: `drone/rc.py` and `main.py` differ, in what is modelled, only in log messages. The buzzer call in `drone/rc.py` is not modelled.

Two producers write the display data. Each replaces the whole dictionary and merges nothing. The statistics decoder writes link sections only, and the MAVLink listener writes a temperature section only.

So link statistics and temperature never appear together (`DisplayData.SingleSource`). As a consequence, the newer overview screen in `wfb_client/data_screen.py` can never draw its temperature line or its throttle mark (`Screens.OverviewNeverShowsTemperature`).

The screen ring built by `DataDisplay.__init__` has four screens: Overview, Packet, Flow and Antenna. The temperature-log screen is defined in `wfb_client/data_screen.py` but is not part of that ring, so it is modelled on its own.

The hardware is modelled as a trace of events: GPIO drives, SPI setup and writes, sleeps, closing SPI and releasing the lines. Functions over the trace give the panel's view of it: which transfers it sees as commands (DC low) and which as data (DC high).

Infinite loops are modelled over a finite sequence of inputs. This covers the button poller, the MAVLink listener, the health logger and the RC callbacks.

## Model

| member | source | states |
|---|---|---|
| Bands.HumanRssi | wfb_client/utils.py:17-27 | the percentage is 2·(rssi+100); each of the five colours holds exactly on its band (<25 RED, <50 ORANGE, <75 YELLOW, <100 GREEN, otherwise CYAN) |
| Bands.RssiBandMonotone | wfb_client/utils.py:17-27 | a stronger signal never gets a worse colour |
| Bands.RssiBandEdges | wfb_client/utils.py:19-27 | band edges are closed below: 25 % is ORANGE, 100 % is CYAN |
| Bands.HumanSnr | wfb_client/utils.py:30-37 | the SNR is passed through; each colour holds exactly on its band (<15 RED, <25 YELLOW, <40 GREEN, otherwise CYAN) |
| Bands.SnrBandMonotone | wfb_client/utils.py:30-37 | a higher SNR never gets a worse colour |
| Bands.HumanPacketLoss | wfb_client/utils.py:40-53 | a missing or empty "lost" counter gives 0 % GREEN; a missing, empty or zero "recv" gives 100 % RED; otherwise loss·recv = 100·lost; GREEN below 1 %, YELLOW below 5 %, RED from 5 % |
| Bands.NoLostIsGreen | wfb_client/utils.py:41-43 | without a "lost" counter, whatever "recv" holds, the loss is 0 % GREEN |
| Bands.PacketLossExamples | wfb_client/data_display.py:53-66 | 1 of 10 is 10 % RED, 1 of 100 is exactly 1 % and already YELLOW, a missing "recv" is 100 % RED |
| Bands.HumanRate | wfb_client/utils.py:1-14 | mbit/s exactly when 8·r ≥ 10^6; the scaled value times 1024 (or 1024²) is 8·r; one decimal exactly below 10, otherwise the truncated whole number |
| Bands.RateRanges | wfb_client/utils.py:4-14 | a kbit/s figure stays below 977 and so fits `%3d`; an mbit/s figure is never below 0.95 |
| Bands.RateMonotoneWithinUnit | wfb_client/utils.py:1-14 | within one unit, a faster link never shows a smaller number |
| DisplayData.Get | wfb_client/utils.py:41-44 | `dict.get` gives None exactly when no entry has the key, otherwise the first entry's value |
| Screens.OverviewValues | wfb_client/data_display.py:98-106 | each value is banded when its input is truthy and shown as 0 WHITE otherwise |
| Screens.Overview | wfb_client/data_display.py:96-142 | the "[No data]" placeholder exactly when the RSSI mean, the SNR mean and the packet section are all falsy; otherwise the three banded values |
| Screens.OverviewWithTemp | wfb_client/data_screen.py:41-104 | the same placeholder rule; the temperature is shown exactly when there is a temperature section; the throttle mark is set exactly when that section says throttled |
| Screens.OverviewNeverShowsTemperature | wfb_client/data_screen.py:45-52 | under single-source display data, a temperature section always yields the placeholder, and a drawn overview never has a temperature or a throttle mark |
| Screens.PacketRows | wfb_client/data_display.py:155-160 | fails with IndexError exactly when some counter has fewer than two numbers; otherwise one row per counter with its name and both numbers; RED exactly when the windowed count is positive and the position is above 1, otherwise WHITE |
| Screens.PacketScreen | wfb_client/data_display.py:145-162 | no or empty packet section gives the placeholder; otherwise the frame holds exactly the packet rows, and it fails (with IndexError) exactly when the rows do |
| Screens.FirstTwoRowsNeverRed | wfb_client/data_screen.py:117-121 | the first two rows are always WHITE |
| Screens.FlowScreen | wfb_client/data_display.py:165-182 | the placeholder exactly when there is no flow section; otherwise both rates through `human_rate` and the FEC pair |
| Screens.AntennaScreen | wfb_client/data_display.py:185-203 | the placeholder exactly when there is no antenna section; otherwise the RSSI and SNR triples |
| TempLog.LastN | wfb_client/data_screen.py:174 | the window is the last n elements, in order |
| TempLog.Appended | wfb_client/data_screen.py:200-201 | an append to the 60-long deque keeps the last 60 of the old contents plus the new sample |
| TempLog.AppendAll | wfb_client/data_screen.py:174 | the buffer never exceeds 60 samples |
| TempLog.AppendAllKeepsNewest | wfb_client/data_screen.py:169-201 | after any number of appends, the buffer is exactly the newest 60 samples of everything appended, in arrival order |
| TempLog.SixtyOneAppends | wfb_client/data_screen.py:169-174 | after 61 appends to an empty buffer, the first sample is gone and the 61st is the newest |
| TempLog.TempBand | wfb_client/data_screen.py:218-220 | GREEN exactly below 70, YELLOW exactly in [70, 80), RED exactly from 80 |
| TempLog.RelativeTimes | wfb_client/data_screen.py:207 | every time is relative to the newest sample, which is at 0 |
| TempLog.Values | wfb_client/data_screen.py:208 | the plotted values are the buffered temperatures, in order |
| TempLog.MaxOf | wfb_client/data_screen.py:223 | the maximum is at least every value and is one of them |
| TempLog.PlotOf | wfb_client/data_screen.py:203-223 | the placeholder exactly when the buffer is empty; otherwise the times relative to the newest sample, the buffered temperatures, one band per sample and the maximum of the temperatures |
| TempLog.TempLogScreen.constructor | wfb_client/data_screen.py:171-174 | the buffer starts empty |
| TempLog.TempLogScreen.Draw | wfb_client/data_screen.py:196-223 | a temperature section is appended (duplicates included) and nothing else changes the buffer; the plot is drawn from the new buffer |
| Display.Successor | wfb_client/data_display.py:211-213 | each screen's next screen is the following one, and the last one wraps to the first |
| Display.AdvanceIsModular | wfb_client/data_display.py:226-227 | k calls of `next_screen` move k positions, modulo 4 |
| Display.FullTurns | wfb_client/data_display.py:208-213 | any multiple of four presses returns to the same screen |
| Display.RingOrder | wfb_client/data_display.py:208-213 | the order is Overview, Packet, Flow, Antenna, then Overview again |
| Display.Render | wfb_client/data_display.py:233-237 | only the packet screen can fail; the flow and antenna screens draw on decoder data; every screen shows the placeholder on temperature-only data |
| Display.DataDisplay.constructor | wfb_client/data_display.py:207-215 | the links loop makes every link point to the successor; the current screen is Overview; the data is empty |
| Display.DataDisplay.NextScreen | wfb_client/data_display.py:226-227 | the current screen moves to its successor |
| Display.DataDisplay.SetData | wfb_client/data_display.py:222-224 | the new data replaces the old data wholesale |
| Display.DataDisplay.CurrentFrame | wfb_client/data_display.py:236 | one draw of the refresh loop: the current screen's own drawing of the current data, and the placeholder on temperature-only data |
| Decoder.HandleVideoRx | wfb_client/client_factory.py:41-80 | succeeds exactly when every key read is present and the byte counters are non-empty, otherwise raises KeyError or IndexError; the six renamed counters in display order; the first byte counts; the FEC pair from a truthy session, otherwise (0, 0); each antenna value is the mean over the antennas (0 with none); the result is the record's `VideoSnapshot` |
| Decoder.AntennaMeans | wfb_client/client_factory.py:59-74 | the summing loop and the in-place division leave each of the six antenna values equal to its mean over the antennas, and 0 when there is none |
| Decoder.VideoSnapshot | wfb_client/client_factory.py:46-80 | the stored dictionary of a well-formed record is link-only, and its antenna values are the means |
| Decoder.VideoSnapshotParts | wfb_client/client_factory.py:46-80 | a link-only snapshot with the renamed counters, byte counts, FEC pair and antenna means of a record is that record's `VideoSnapshot` |
| Decoder.SumFieldBounds | wfb_client/client_factory.py:63-69 | bounds on every antenna entry bound the accumulated sum |
| Decoder.MeanWithinBounds | wfb_client/client_factory.py:71-74 | each averaged value lies within the range the antennas reported |
| Decoder.RenamedCountersReadBack | wfb_client/client_factory.py:46-53 | the renamed packet section reads back "recv" as the "all" counter and "lost" as "lost", so the loss bands apply to the right numbers |
| Decoder.RoutesAgree | wfb_client.py:57-59 | the two dispatch variants raise on the same records and run the video handler on the same records; the "mavlink rx" branch acts like ignoring |
| Decoder.FactoryRoute | wfb_client/client_factory.py:35-39 | raises KeyError("type") exactly when "type" is missing; routes to the video handler exactly for type "rx" with id "video rx", and to the MAVLink handler exactly for type "rx" with id "mavlink rx" |
| Decoder.ScriptRoute | wfb_client.py:57-59 | raises KeyError("type") exactly when "type" is missing; continues to the video handling exactly for type "rx" with id "video rx"; never routes to a MAVLink handler |
| Decoder.StringReceived | wfb_client/client_factory.py:35-39 | a missing "type" or a failing handler leaves the display data unchanged; a non-video record changes nothing; a well-formed video report stores exactly the dictionary the handler built |
| Oled.CommandTransfers | wfb_client/display_controller.py:106-108 | one command transfer per command byte |
| Oled.TransfersAppend | wfb_client/display_controller.py:106-112 | the panel's view of two traces, one after the other, is the concatenation of the two views |
| Oled.CommandsSeenAsCommands | wfb_client/display_controller.py:106-108 | a run of `command` calls is seen by the panel as exactly those bytes, each as a command, and leaves DC low |
| Oled.DataSeenAsData | wfb_client/display_controller.py:110-112 | a `data` call is seen as one data transfer of exactly those bytes, and leaves DC high |
| Oled.PackingIsRgb565 | wfb_client/display_controller.py:207-208 | the two bytes written per pixel are its RGB565 encoding: 5 bits red, 6 bits green, 5 bits blue |
| Oled.PackingExamples | wfb_client/display_controller.py:207-208 | white is FF FF, red is F8 00, green is 07 E0, blue is 00 1F |
| Oled.DisplayController.constructor | wfb_client/display_controller.py:62-76 | both lines start high and nothing has been sent |
| Oled.DisplayController.SetReset | wfb_client/display_controller.py:86-88 | the `RST_PIN` setter drives the reset line and changes nothing else |
| Oled.DisplayController.SetDc | wfb_client/display_controller.py:90-92 | the `DC_PIN` setter drives the DC line and changes nothing else |
| Oled.DisplayController.Pause | wfb_client/display_controller.py:182 | a `time.sleep` between hardware steps records a sleep and changes no line |
| Oled.DisplayController.Release | wfb_client/display_controller.py:129 | `gpio.release()` records the release and changes no line level |
| Oled.DisplayController.ModuleInit | wfb_client/display_controller.py:94-99 | reset goes low, SPI is set to 32 MHz mode 3, DC goes high; returns 0 |
| Oled.DisplayController.ModuleExit | wfb_client/display_controller.py:101-104 | SPI is closed, then reset and DC go low |
| Oled.DisplayController.Command | wfb_client/display_controller.py:106-108 | DC goes low, then one byte is written |
| Oled.DisplayController.Data | wfb_client/display_controller.py:110-112 | DC goes high, then the bytes are written |
| Oled.OledDisplay.constructor | wfb_client/display_controller.py:115-118 | a fresh controller with both lines high and an empty trace; the panel is 96×64 |
| Oled.OledDisplay.Commands | wfb_client/display_controller.py:138-174 | a sequence of commands appends exactly their command traces |
| Oled.OledDisplay.Reset | wfb_client/display_controller.py:179-186 | reset high, low, high, each followed by a 100 ms sleep |
| Oled.OledDisplay.InitDisplay | wfb_client/display_controller.py:132-177 | module init, reset, the 37-byte setup script, a 100 ms sleep, then display on |
| Oled.InitSeenByPanel | wfb_client/display_controller.py:132-177 | the panel sees initialisation as exactly the setup script followed by 0xAF, all as commands |
| Oled.OledDisplay.SetWindows | wfb_client/display_controller.py:188-194 | column and row address commands with inclusive end addresses x_end−1 and y_end−1 |
| Oled.OledDisplay.GetBuffer | wfb_client/display_controller.py:200-209 | raises IndexError exactly when the image has more pixels than the panel; otherwise a buffer of width·2·height bytes with pixel p's two RGB565 bytes at 2p and 2p+1, and zeros after the image |
| Oled.OledDisplay.ShowImage | wfb_client/display_controller.py:211-224 | the full-screen window commands, then one data transfer of the first width·2·height bytes; raises IndexError exactly when the buffer is shorter, after only the window commands |
| Oled.FrameSeenByPanel | wfb_client/display_controller.py:211-224 | the panel sees a frame as the six window commands and one data transfer of the pixels |
| Oled.OledDisplay.Clear | wfb_client/display_controller.py:196-198 | shows an all-zero buffer of the full size |
| Oled.OledDisplay.Exit | wfb_client/display_controller.py:126-130 | clears the screen, closes SPI, drives both lines low and releases them |
| Button.TrackPush | wfb_client/button.py:32-43 | screen advances equal the rising edges (inactive to active) of the polled levels; the tracked state ends as the last level; the current screen moves by that many positions modulo 4 |
| Button.RisingEdgesSnoc | wfb_client/button.py:37-42 | one more poll adds a press exactly when the tracked state was inactive and the poll is active |
| Button.HeldAdvancesAtMostOnce | wfb_client/button.py:37-40 | a held button advances the screen at most once |
| Button.PressNeedsRelease | wfb_client/button.py:37-42 | every press is a poll that reads active after an inactive tracked state |
| Button.NeverReleasedNeverAdvances | wfb_client/button.py:34-42 | when the button is held from the start and never released, the screen never moves |
| TextSplit.FindFrom | wfb_client/mavlink.py:34 | finds the first occurrence of the separator at or after a position, or proves there is none |
| TextSplit.Split | wfb_client/mavlink.py:34 | `split` always gives at least one field |
| TextSplit.SplitJoin | wfb_client/mavlink.py:34 | splitting a joined line gives back its fields when no field contains the separator and the separator cannot overlap itself |
| Throttle.DigitValue | health_check/cpu_throttle.py:31 | a digit's value is below its base |
| Throttle.ParseIntBase0 | health_check/cpu_throttle.py:31 | `int(s, 0)` fails only with ValueError |
| Throttle.AfterFirstEquals | health_check/cpu_throttle.py:31 | raises ValueError exactly when there is no '='; otherwise the text after the first '=' |
| Throttle.ThrottleReasons | health_check/cpu_throttle.py:33-40 | succeeds exactly when n ≥ 0 or n ≤ −8, otherwise ValueError; the four flags are bits 0..3 of abs(n) |
| Throttle.PaddedChar | health_check/cpu_throttle.py:33-34 | the padded binary text holds bit i of abs(n) at position −i−1, or the 'b' of a negative number's text |
| Throttle.BinLength | health_check/cpu_throttle.py:33-34 | the binary digits reach four characters exactly from 8 |
| Throttle.Reasons | health_check/cpu_throttle.py:24-40 | succeeds exactly when the report has an '=', the text after it parses with `int(s, 0)` and the number is not in −7..−1; every failure is ValueError; on success the four flags are bits 0..3 of the absolute value of the parsed number |
| Throttle.CheckIfThrottled | health_check/cpu_throttle.py:36-40 | the loop over the four map keys gives exactly the decoded reasons |
| Throttle.HighBitsIgnored | health_check/cpu_throttle.py:16-21 | bits above bit 3 (such as the sticky "has occurred" bits) never change the reasons |
| Throttle.HexDigitsValue | health_check/cpu_throttle.py:31 | the hex digits of m parse back to m |
| Throttle.HexReportDecodes | health_check/cpu_throttle.py:30-40 | any report `name=0x<hex>` decodes to its number, whose reasons are its low four bits |
| Throttle.ReasonExamples | health_check/cpu_throttle.py:33-40 | 0x50005 is under-voltage and throttled; 0 is none; −8 sets the soft limit; −5 raises ValueError |
| Throttle.ParseExamples | health_check/cpu_throttle.py:30-31 | no '=' raises ValueError; "=7" is 7; "=07" raises ValueError |
| Health.LogHealth | health_check.py:38-67 | succeeds exactly when the throttle decoding does, and raises its error otherwise; the readings come first, then the four flags in map order |
| Health.RowFields | health_check.py:142 | one field per column |
| Health.CsvLine | health_check.py:137-143 | every written line ends with a newline |
| Health.ColumnsLineUp | health_check.py:15-30 | the temperature and the four flags sit under the header columns of the same names |
| Health.HeaderReadsBack | health_check.py:137 | splitting the header line at commas gives back the column names |
| Health.LineReadsBack | health_check.py:142 | a data line whose readings hold no comma splits back into its fields |
| Health.FirstError | health_check.py:139-143 | no error exactly when every sample succeeded |
| Health.HealthLog.constructor | health_check.py:135-136 | both files start empty |
| Health.HealthLog.Run | health_check.py:134-144 | the header, then one line per sample up to the first failure, written identically to both files; that failure is the result |
| Health.HealthLog.AppendRows | health_check.py:139-143 | appends the same lines to both files: the samples up to the first failure |
| Health.StopsAt | health_check.py:139-143 | the rows written are those before the first failing sample |
| Health.WrittenSnoc | health_check.py:142-143 | a further successful sample adds exactly its CSV line |
| MavlinkLogger.FlagBinary | health_check/mavlink_logger.py:42 | `format(flag, "b")` is "1" exactly for True and "0" for False |
| MavlinkLogger.LogEntry | health_check/mavlink_logger.py:41-43 | the entry is sent with INFO severity |
| MavlinkLogger.EntryFields | health_check/mavlink_logger.py:41-42 | the entry splits into the timestamp, the temperature and the one-character arm-frequency-capped flag |
| MavlinkLogger.EntryIgnoresThrottled | health_check/mavlink_logger.py:42 | the entry carries the arm-frequency-capped flag (tuple index 11), not the throttled flag |
| MavLink.ParseStatusText | wfb_client/mavlink.py:34-41 | succeeds exactly when there are three fields and the first two parse as floats; otherwise raises ValueError or IndexError; throttled is the truthiness of the third field |
| MavLink.TempSnapshot | wfb_client/mavlink.py:35-41 | the stored data holds only the temperature section |
| MavLink.ConsumeKeepsSingleSource | wfb_client/mavlink.py:31-41 | the listener leaves the data unchanged or temperature-only, so the data stays single-source |
| MavLink.OtherMessagesChangeNothing | wfb_client/mavlink.py:33 | messages that are not STATUSTEXT never touch the display data |
| MavLink.SentEntryDecodes | wfb_client/mavlink.py:34-39 | every entry the drone sends decodes on the ground with throttled true, whatever the flag was, because "0" is a non-empty string |
| MavLink.MissingTemperatureStopsListener | wfb_client/mavlink.py:38 | a sample without a temperature ("None") raises ValueError and leaves the display data unchanged |
| MavLink.MavLinkListener.constructor | wfb_client/mavlink.py:12-15 | the listener starts active on its display |
| MavLink.MavLinkListener.Exit | wfb_client/mavlink.py:23-25 | the listener stops |
| MavLink.MavLinkListener.GetLogs | wfb_client/mavlink.py:27-41 | while active, the display data is the result of consuming the received messages in order, stopping at the first error; when inactive, nothing changes |
| Camera.GenerateFilename | main.py:186-194 | the name is the folder, the mode, "--", the time stamp, "." and the extension |
| Camera.DistinctStampsDistinctNames | src/camera.py:138-146 | different time stamps, of any lengths, give different file names |
| Camera.OperationsKeepConsistent | main.py:126-184 | every operation keeps "recording exactly when there is a recording file" |
| Camera.GuardsMakeRepeatsHarmless | src/camera.py:73-126 | a repeated start or stop changes nothing; a stop always leaves the flag off |
| Camera.StreamStartsIff | src/camera.py:77-87 | the stream runs afterwards exactly when it ran already, or no wifibroadcast check is made, or the check passes |
| Camera.ExitLeavesIdle | main.py:108-124 | on exit the camera is closed first, then the active stream and recording are stopped, and everything is off |
| Camera.CameraService.constructor | main.py:68-98 | the service starts idle |
| Camera.CameraService.StartStream | src/camera.py:73-88 | the state after `start_stream` |
| Camera.CameraService.StopStream | main.py:138-148 | the state after `stop_stream` |
| Camera.CameraService.StartVideo | main.py:150-161 | the state after `start_video` |
| Camera.CameraService.StopVideo | main.py:163-174 | the state after `stop_video` |
| Camera.CameraService.CapturePhoto | main.py:176-184 | the state after `capture_photo` |
| Camera.CameraService.Exit | main.py:108-124 | the state after exit; returns false exactly when an exception was passed |
| Rc.RoundHundredths | drone/rc.py:149 | `round(v/100)`: within half a hundred of v, and even on a tie |
| Rc.Translate | drone/rc.py:141-158 | MEDIUM exactly for 1451..1549, HIGH exactly for 1950..2050, otherwise LOW |
| Rc.TranslateExamples | drone/rc.py:149-158 | 1510 is MEDIUM; 1450 and 1550 round to even and are LOW; 1950 and 2050 are HIGH |
| Rc.HandlerAction | drone/rc.py:98-138 | channel 7 HIGH starts a video, channel 7 LOW stops it, channel 9 HIGH takes a photo, anything else does nothing |
| Rc.ApplyActionsAppend | drone/rc.py:72-78 | camera calls applied in two batches give the same state as all at once |
| Rc.ObserveKeepsChannels | drone/rc.py:72-74 | the cache never gains or loses a channel |
| Rc.ObserveLeavesOthers | drone/rc.py:72-77 | a channel missing from the update keeps its cached value |
| Rc.NoChangeNoAction | drone/rc.py:76-78 | an update that agrees with the cache calls nothing |
| Rc.ObserveAgrees | drone/rc.py:72-78 | after an update, the cache agrees with it |
| Rc.RepeatedUpdateIsIgnored | drone/rc.py:60-78 | the same channel update delivered twice calls the camera only once |
| Rc.RcService.constructor | drone/rc.py:36-39 | channels 7 and 9 start cached as LOW |
| Rc.RcService.HandleRcChange | main.py:282-322 | the camera state is the result of the handler's action |
| Rc.RcService.ChannelObserver | drone/rc.py:60-78 | the cache and camera end as the specified update gives them |
| Rc.RcService.ArmObserver | drone/rc.py:80-96 | arming starts the stream, anything else stops it |

## Left out

- Pixel rendering is not modelled: fonts, PIL images, the matplotlib figure and `Image.frombytes`. The screens are modelled up to what they decide to draw. The endless refresh loop is modelled as one frame (`Display.DataDisplay.CurrentFrame`), and the image it passes to `get_buffer` is not derived from that frame.
- `human_temp` is imported at module level by `wfb_client/data_screen.py` (line 10) but `wfb_client/utils.py` does not define it. As written, importing that module raises ImportError, so none of its screens can run. Screens.OverviewWithTemp, the packet/flow/antenna screens of that module and the TempLog members model that module as if the import were repaired. The colour of the temperature line is not modelled; only whether the line and the throttle mark are drawn is.
- Bands.HumanRate: the `%0.1f`/`%3d` text formatting is not modelled; the result is the scaled number, the unit and the format decision.
- Float rounding is not modelled anywhere: Python floats are exact reals in Bands.HumanRate, Bands.HumanPacketLoss (the division at `wfb_client/utils.py:48`), the antenna sums and means of Decoder.AntennaMeans and Decoder.HandleVideoRx, and TempLog.RelativeTimes. The band decisions at exact ratios are unaffected (1/100 and 5/100 times 100 come out as exactly 1.0 and 5.0 in floating point), but sums and differences may differ from the floats in the last bits.
- Rc.RoundHundredths: uses exact rational arithmetic for `round(v / 100)`. This matches the float result, because v/100 can only be a tie when v ends in 50, and then it is exact in binary.
- The SPI bus and the GPIO chip are a trace of events (`Oled.HwEvent`). `time.sleep` is a `Sleep` event, and the hardware's response is not modelled.
- Oled.OledDisplay.GetBuffer: takes the image as a width, a height and a row-major pixel sequence. PIL's `image.load()` is not modelled.
- Button.TrackPush: runs over a finite sequence of polled levels instead of the endless polling thread; the 50 ms sleep is left out.
- MavLink.MavLinkListener.GetLogs: runs over a finite sequence of received messages, where `None` is a poll that returned nothing. The UDP connection and the thread are left out.
- MavLink.ParseStatusText: `float()` is the `parseFloat` parameter, since float parsing is not modelled.
- Health.LogHealth: the readings are given as the text `str()` renders them, since psutil, `_check_pid` and `vcgencmd` are operating-system I/O. The throttle report text is a parameter, and its `.strip()` is not modelled.
- Health.HealthLog.Run: writes the lines to two sequences standing for the two files. File paths, `os.makedirs`, the time-stamped file name and the 0.2 s sleep are left out. It runs over a finite sequence of samples.
- Throttle.ParseIntBase0: covers optional signs, `0x`/`0o`/`0b` prefixes and the rule that decimal literals may not have leading zeros. It does not model surrounding whitespace or `_` digit separators. Its own contract states only that errors are ValueError; what it parses is stated by `Throttle.HexReportDecodes` and `Throttle.ParseExamples`.
- MavlinkLogger.LogEntry: the timestamp is a parameter, standing for `datetime.strptime(...).timestamp()` rendered as text. The `.encode()` to bytes and `statustext_send` are left out.
- MAVLink message framing, MessagePack decoding, Twisted's length-prefixed framing and reconnection are left out. The decoder starts from the decoded record.
- The `rx_ant_stats` keys are not modelled, only their values in order.
- Decoder.HandleVideoRx: each `rx_ant_stats` value is a 7-field record (`Decoder.AntStat`), so the ValueError that the tuple unpacking at `wfb_client/client_factory.py:63` raises on a value of any other length is not modelled.
- Camera.CameraService: the camera library's calls are recorded as events. Picamera2 configuration, encoders, FFmpeg and GStreamer outputs are left out. The current time is given as the `stamp` text, and `os.system("systemctl is-active ...")` is the `wfbActive` parameter.
- Rc.RcService: the dronekit connection, `listen`, `close` and the buzzer are left out. `drone/camera.py` is not part of this model, so the RC service drives the modelled camera service. The `value is True` test of the arm observer is modelled on a bool.
- Logging calls are left out throughout.
- `main.py`'s `MAVLinkHandler` and the command-line entry points are left out. They are glue code around the modelled services.
