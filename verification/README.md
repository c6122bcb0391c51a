# A verified model of the UPnP renderer's eventing and of its infrared input

The renderer keeps the state of a UPnP service in a table of variables. Control
points do not poll it: they subscribe, and a collector turns changes of the table
into documents that are sent to them. This project models that path and the parts
of the renderer that feed it, and proves what a control point may rely on.

- **Eventing.** `LastChange.dfy` is the collector as a state machine on values: a
  change is appended to a pending document, which is flushed into the variable
  `LastChange` when the last open transaction ends, and sent unless that variable
  held the same document already. `VariableContainer.dfy` has the table, the builder
  and the collector as classes; a flush writes into the same table and so calls the
  collector again, and each method is proved to take one step of the state machine.
  `IgnoreMask.dfy` connects the 32-bit mask of variables that are not evented with
  the set it stands for.
- **What subscribers know.** `Replica.dfy` follows a copy that applies the documents
  it receives. It agrees with the table whenever no transaction is open although a
  repeated document is not sent, and at every moment it is the table of some moment
  without an open transaction. For a subscriber that comes inside a transaction this
  can fail; the project proves exactly when. `ChangeLog.dfy` shows that the documents
  spell out the changes of a plain table, and `Bracketing.dfy` lifts all of it to
  interleavings of actions and sections locked by a mutex. `Subscription.dfy` splits
  subscribing into the snapshot and its acceptance, between which documents can be
  missed, and proves exactly when that leaves a subscriber wrong; `MissedEvents.dfy`
  shows that it can then see a state of the transport that never was.
- **The transport.** `AvTransport.dfy` has the handlers of the AVTransport service and
  the callbacks of the output module as events over table, transport state and output;
  `Renderer.dfy` proves the imperative handlers to be just these events, from the
  initialisation on. `TransportViews.dfy` draws the conclusions over whole runs,
  including what subscribers can ever see, and `Playback.dfy` says when Play succeeds,
  when it makes a paused track go on, when the URI shown is the one played, and when the
  state shown after a hand-over is what the player was told. `TransportEffects.dfy` holds
  every event against the names and texts that control points see and the messages that
  the player gets, and `TrackTimes.dfy` follows duration and position, and with them the
  end of a stream. `TransportNames.dfy` lists
  the 31 variables and `SilanOutput.dfy` is the output module. `UpnpTime.dfy` prints and
  parses track times the way printf and sscanf do.
- **The amplifier.** `Watchdog.dfy` is the loop that powers, mutes and unmutes the
  amplifier by counting idle ticks, explained by the history of those ticks alone.
  `Amplifier.dfy` puts it next to the transport: when a transport that plays is in S/PDIF
  mode, and when it loses power.
- **Infrared.** `IrDecoder.dfy` has the interrupt automaton of the remote control and
  the language of frames and repeat bursts, and proves both equal on every trace of
  widths; `IrRepeats.dfy` says which key a held button repeats, and `RemoteControl.dfy`
  states the signal in microseconds and the words of keys. `NoiseFilter.dfy` has the
  noise filter that works on one sample at a time, and proves it equal to a definition
  on whole streams; `EdgeDriver.dfy` is the interrupt that feeds it.
- **Text.** `XmlEscape.dfy` has the two passes of the escaper, `MimeTypes.dfy` the
  registry of MIME types and the buffer that announces them, `Memory.dfy` the copying
  of text into a buffer. `Options.dfy` is the option type, `Sequences.dfy` has facts about
  sequences.

A document is a sequence of pairs of a name and a value. Whether the queue to the
player takes a message, what the player answers, the lock of the S/PDIF receiver and
the clock are parameters. A player message, a key, an idle tick and a locked section of
a handler are each one atomic event. The renderer is modelled from the end of its
initialisation on.

Where the code and its comments disagree, the code is followed. A comment at
`src/upnp_transport.c:556` says that a variable is replaced without sending an event;
the collector is called, and the event leaves when the transaction ends. A comment at
line 735 gives the printed time in nanoseconds; the code prints seconds. Times below
zero do not always read back as printed (`UpnpTime.RoundTripIff`), silence does not
always switch the amplifier off (`Watchdog.SilencePowersOffIff`), and a track that plays
does not always keep it on (`Amplifier.PlayingLosesPowerIff`); a quotation mark in an
attribute is not recovered (`XmlEscape.AttributeRoundTripIff`),
repetitions produce keys without a frame before them, or of an older frame
(`IrRepeats.RepeatsWithoutFrameIff`, `IrRepeats.RepeatWorkIsOfLastFrameIff`), Play does
not always make a paused track go on or succeed where it is offered
(`Playback.PlayResumesAfterRunIff`, `Playback.PlaySucceedsAfterRunIff`), a transport is
shown as stopped even if the player could not be told (`TransportEffects.StopSilences`), and who
subscribes while a document is being sent may stay wrong
(`Subscription.SubscribersAgreeIff`).

## Model

| member | source | states |
|---|---|---|
| Replica.ReplicaAgreement | src/variable-container.c:266-325 | a subscriber whose snapshot is taken while no transaction is open, and to which each document sent from then on is delivered in order, has the table's values for all evented variables whenever none is open again, in every run, although repeated documents are not sent |
| Replica.AgreementIff | src/variable-container.c:278-308 | any view at any moment, applying what is sent from then on, agrees with the table at every later moment without a transaction, in all runs, if and only if it is at most the pending document behind and the open transaction cannot still grow into the document sent last while that one has a value the view lacks |
| Replica.AgreementIffNoRisk | src/variable-container.c:286-289 | for a snapshot that is accepted at once, even inside a transaction, only the second half of that condition is left |
| Replica.SubscribingInsideTransaction | src/variable-container.c:287-289 | a concrete run in which a subscriber that came inside a transaction stays stale, because a repeated document was suppressed |
| Replica.ViewIsCommitted | src/variable-container.c:278-308 | at every moment of a run the subscriber's view is the table of some moment of that run at which no transaction was open |
| Replica.ApplyIdempotent | src/variable-container.c:286-289 | applying a document a second time changes nothing, which is why it may be suppressed |
| Replica.SnapshotIsTable | src/upnp_device.c:183-200 | the snapshot gives exactly the variables that are neither LastChange nor A_ARG_TYPE_ ones, with their values in the table |
| Replica.RunKeepsSafe | src/variable-container.c:99-325 | in every run the view stays at most the pending document behind the table, and never gets at risk of missing something by suppression |
| LastChange.StepKeepsInv | src/variable-container.c:266-325 | every write, start and finish keeps: nothing is pending without a transaction, and the table holds the last write of the pending or else of the last document |
| LastChange.CreatedIsInv | src/variable-container.c:214-259 | the collector created for a table satisfies this invariant, its first document telling all variables |
| ChangeLog.LogIsConserved | src/variable-container.c:151-325 | all flushed documents in order, sent or suppressed, followed by the pending one, are the chronological log of the effective changes of a plain table, repeats kept; and both tables are the same but for LastChange |
| ChangeLog.OneDocumentPerTransaction | src/variable-container.c:266-308 | from one moment without a transaction to the next at most one document is flushed, and it is the log of everything that changed in between |
| IgnoreMask.MaskInsert | src/variable-container.c:261-264 | setting bit v of the mask adds just v to the set of ignored variables |
| IgnoreMask.MaskBit | src/variable-container.c:320 | after setting bit v, bit w is found set if and only if w is v or it was set before |
| VariableContainer.VariableTable.constructor | src/variable-container.c:51-67 | missing initial values become the empty string, there are no callbacks |
| VariableContainer.VariableTable.Get | src/variable-container.c:88-96 | a value exactly for the indices inside the table whose name is in use |
| VariableContainer.VariableTable.RegisterCallback | src/variable-container.c:117-126 | the new callback comes first |
| VariableContainer.VariableTable.Change | src/variable-container.c:99-115 | for a table with a collector: tells whether the value differed, and takes the table, the collector and its pending, flushed and sent documents exactly to the state the machine says, including the nested change that a flush makes; terminates because a change of an ignored variable makes no further one |
| VariableContainer.VariableTable.ChangeUncollected | src/variable-container.c:99-115 | the same function for a table that only loggers listen to: the value is stored, nothing else changes |
| VariableContainer.LastChangeBuilder.Add | src/variable-container.c:151-184 | appends the pair to the pending document |
| VariableContainer.LastChangeBuilder.ToXml | src/variable-container.c:186-195 | returns the pending document, none if nothing was added, and starts afresh |
| VariableContainer.DescribeTable | src/variable-container.c:233-249 | adds all variables in use but LastChange in order, and finds the index of that one |
| VariableContainer.LastChangeCollector.constructor | src/variable-container.c:214-259 | the state after creation: the table flushed as first document, LastChange ignored, the callback registered |
| VariableContainer.LastChangeCollector.AddIgnore | src/variable-container.c:261-264 | adds the variable to the ignored set and changes nothing else |
| VariableContainer.LastChangeCollector.Start | src/variable-container.c:266-268 | raises the level |
| VariableContainer.LastChangeCollector.Finish | src/variable-container.c:270-274 | lowers the level and flushes if that was the last |
| VariableContainer.LastChangeCollector.Notify | src/variable-container.c:278-308 | without an open transaction moves the pending document into LastChange and sends it if it differs from the one before |
| VariableContainer.LastChangeCollector.Callback | src/variable-container.c:313-325 | ignores what the mask says, appends anything else, and flushes outside transactions |
| VariableContainer.SubscriptionSnapshot | src/upnp_device.c:183-202 | the first event for a subscriber: the table document without LastChange and A_ARG_TYPE_ variables |
| Bracketing.Next | src/upnp_transport.c:508-522 | in every interleaving the transaction level is the number of open actions plus one for a locked section, so it is positive whenever an action or section finishes |
| Bracketing.After | src/upnp_device.c:308-312 | the level stays this count over whole runs |
| Bracketing.EventsLeaveOnlyWhenIdle | src/upnp_device.c:374-378 | a document is flushed or sent only in a step after which no action is open and the mutex is free |
| Bracketing.OverlappingActionsShareDocument | src/upnp_device.c:294-312 | from an idle moment to the next one the changes of all overlapping actions and sections leave in one document |
| Subscription.AcceptedViewsAgreeIff | src/upnp_device.c:185-214 | the race between the snapshot and the acceptance of a subscription, with any run in between: the subscriber agrees whenever no transaction is open, in all runs that follow, if and only if every value at the acceptance is the one in the snapshot or still to come with the pending document, and there is no risk of a suppressed repetition; without an open transaction the first half decides |
| Subscription.NothingSentNothingMissed | src/upnp_device.c:185-214 | a snapshot taken while no transaction is open is safe if nothing was sent before the acceptance |
| Subscription.ChangeInBetweenIsMissed | src/upnp_device.c:201-213 | a single change between snapshot and acceptance leaves the subscriber stale |
| Subscription.SubscribersAgreeIff | src/upnp_device.c:152-226 | the same exact condition for the service with its mutex and its actions: right whenever idle, in every interleaving that may follow |
| Subscription.IdleViewsAgree | src/upnp_device.c:152-226 | a snapshot of the idle service is right whenever it is idle again, if no document was sent before the acceptance |
| AvTransport.EventKeepsInv | src/upnp_transport.c:569-965 | every handler, player message, key and tick keeps: the transport is stopped, playing or paused, TransportState names it, the actions, track numbers and current track go with it, the output's next URI is the variable's, and the collector's invariant |
| AvTransport.WritesKeepInv | src/upnp_transport.c:642-965 | the changes of every locked section, made to a plain table, keep the variables consistent with the new state |
| AvTransport.PlainState | src/upnp_transport.c:593-623 | changing the state always leaves the name and the available actions of the new state, also when the actions are not written because the name did not change |
| AvTransport.SectionIsLegal | src/upnp_transport.c:508-522 | a locked section returns to the level it began with, and sends nothing when it lies inside an action |
| AvTransport.OutputFollows | src/output_silan.c:475-498 | in every event the output's next URI is what the variable will be, absent exactly for the empty one |
| TransportViews.RunKeepsSysInv | src/upnp_transport.c:569-965 | the transport invariant over every run of events |
| TransportViews.SubscribersSeeConsistentStates | src/upnp_transport.c:1028-1036 | a subscriber whose snapshot was taken while no action was open, and that missed nothing before it was accepted, holds after every event of every run a consistent transport state (actions match the state, track numbers match the URIs, a playing state has the transport's URI as its track), and the current one when no action is open |
| TransportViews.NothingSentNothingMissed | src/upnp_device.c:185-214 | it missed nothing if no document was sent between snapshot and acceptance, whatever events happened |
| MissedEvents.MissedUriShowsNonsense | src/upnp_device.c:201-213 | a subscriber that missed a new URI of the stopped transport between snapshot and acceptance sees, after Play, a playing transport whose track is not the transport's URI, a state that never was |
| TransportViews.EndOfStreamHandsOver | src/output_silan.c:478-492 | at the end of a stream the next URI is sent to the player and becomes the URI of transport and track with its metadata, and the slot for the next one is empty on both sides |
| TransportViews.EndOfStreamStops | src/output_silan.c:494-497 | without a next URI nothing is sent, the transport stops and its URIs are empty |
| TransportEffects.EventShows | src/upnp_transport.c:569-994 | every handler, message, key and tick: the content of each variable afterwards, by its name and in plain texts; variables that are not mentioned keep theirs |
| TransportEffects.StateIsShown | src/upnp_transport.c:599-614 | stopped is shown as STOPPED and offers PLAY, playing as PLAYING with PAUSE,STOP,SEEK, paused as PAUSED_PLAYBACK with PLAY,STOP |
| TransportEffects.EventSends | src/output_silan.c:604-681 | the messages each event tells the player: stop unless stopped already; a pending URI or the pause toggle; the toggle for a pause; the parsed time for a seek; a request for the position; the next URI at the end of a stream; the two messages that select S/PDIF, for its key and for the tick that selects it; nothing else |
| TransportEffects.RunSends | src/output_silan.c:270-363 | in every run the player is told these messages in this order and no other |
| TransportEffects.StopSilences | src/upnp_transport.c:843-846 | over runs: after Stop the transport is shown as STOPPED and nothing that makes the player sound is sent until Play or a hand-over; the player was told to stop exactly if the queue took the message |
| TransportEffects.TimesAreShown | src/upnp_transport.c:786-794 | after the times were asked for, CurrentTrackDuration parses back to the output's duration and RelativeTimePosition to the player's answer or else the stored position, for times from zero on |
| TransportEffects.EventedNames | src/upnp_transport.c:1031-1036 | subscribers are told of every variable but LastChange, the two times and the two counters |
| TransportEffects.SnapshotNames | src/upnp_device.c:188-199 | the first event for a subscriber of the transport has all its variables but LastChange and the three A_ARG_TYPE_ ones |
| TrackTimes.TimesAreReported | src/output_silan.c:465-473 | over runs, duration and position are those reported or answered last, or 0 if a pending URI was played since, even in vain |
| TrackTimes.TimesAreAnswered | src/upnp_transport.c:782-797 | over runs, what GetPositionInfo answers reads as the times reported for the current track, or as the player's answer |
| TrackTimes.StreamEndsIff | src/output_silan.c:475-498 | over runs, a message of the player ends a stream or hands over if and only if it is STOP and the position reported last for this track is its reported duration and not zero; any other message changes nothing that is shown or sent |
| TrackTimes.NewTrackDoesNotEnd | src/output_silan.c:634-645 | over runs: after Play of a pending URI no message of the player ends a stream or hands over until a duration other than 0 was reported, whatever happens |
| Playback.PlayResumesIff | src/output_silan.c:629-651 | Play on a paused transport makes the player go on if and only if no URI is pending in the output, the player said last that it is paused, and the queue takes the message; and what happens in each other case |
| Playback.PendingIff | src/output_silan.c:613-645 | over runs, whether a URI is pending in the output, and which: that of the last event that set one or handed over to the next one, unless it was empty or the transport was told to play since while stopped or paused, even in vain |
| Playback.PlayResumesAfterRunIff | src/upnp_transport.c:883-915 | over runs, Play makes a paused track go on if and only if the queue takes the message, the player's last report was that it is paused, and by the events so far no URI is pending |
| Playback.PlaySucceedsAfterRunIff | src/upnp_transport.c:896-914 | over runs, Play on a stopped or paused transport succeeds if and only if the queue takes the message, and by the events so far a URI is pending or the player's last report was that it is paused |
| Playback.PlayedUriIsShownIff | src/upnp_transport.c:905-914 | over runs, the URI that Play tells the player is the one shown for the current track if and only if the transport did not lose its URIs after this one was loaded |
| Playback.PauseThenPlayIff | src/upnp_transport.c:883-965 | Pause and Play of a playing transport: the player goes on if and only if it reported the pause (or was paused before) and nothing was pending |
| Playback.PausedAfterHandOverRestarts | src/output_silan.c:484-488 | the case of a hand-over: it leaves the URI pending in the output, so that pause, the player's report of it, and Play start the track again |
| Playback.MessageStopsIff | src/output_silan.c:475-497 | a message of the player stops the transport if and only if it says STOP at the last duration reported, not zero, and there is no next URI |
| Playback.HandOverAgreesIff | src/output_silan.c:478-492 | after a hand-over, taken by the queue or refused: what the player was told and the state that is shown agree if and only if the message was taken and the transport was playing, or refused and it was not; the current track shown is the next URI in any case |
| Playback.SecondStopStops | src/output_silan.c:475-497 | position and duration outlive the hand-over: a second STOP message directly after it stops the transport although the player was told to play |
| TransportNames.NamesAreDistinct | src/upnp_transport.c:136-168 | no two variables of the service have the same name |
| Renderer.Renderer.constructor | src/upnp_transport.c:1017-1036 | after initialisation the system invariant holds, no transaction is open, no URI is pending, the player counts as stopped, the input is S/PDIF, and the amplifier is as an empty history of ticks explains it |
| Renderer.Renderer.ServiceLock | src/upnp_transport.c:511-513 | the section starts a transaction; who may hold the mutex is in Bracketing.Next |
| Renderer.Renderer.ServiceUnlock | src/upnp_transport.c:518-520 | the section finishes its transaction |
| Renderer.Renderer.ReplaceTransportUriAndMeta | src/upnp_transport.c:569-583 | the table after writing URI, metadata and the number of tracks, in this order; and whether metadata of the stream are wanted |
| Renderer.Renderer.ReplaceCurrentUriAndMeta | src/upnp_transport.c:586-591 | the table after writing current track, its URI and its metadata, in this order |
| Renderer.Renderer.ChangeTransportState | src/upnp_transport.c:593-623 | the new state, its name and, if that changed, the available actions |
| Renderer.Renderer.TransitionFromOutput | src/upnp_transport.c:861-881 | the locked section for each kind of feedback of the output |
| Renderer.Renderer.SetAvTransportUri | src/upnp_transport.c:642-671 | an error and no change without instance or URI; otherwise the event that sets URIs and output, the current track too while playing |
| Renderer.Renderer.SetNextAvTransportUri | src/upnp_transport.c:673-698 | the next URI is taken in variable and output even when missing metadata make it an error |
| Renderer.Renderer.Stop | src/upnp_transport.c:828-859 | one event: the transport is stopped unless it is already or has no media, no error in either case; what it tells the player is in TransportEffects.EventSends |
| Renderer.Renderer.Play | src/upnp_transport.c:883-931 | succeeds exactly when already playing, or stopped or paused with something the output can play; sets state, time and current track |
| Renderer.Renderer.PauseStream | src/upnp_transport.c:933-965 | succeeds exactly when already paused, or playing and the player takes the message |
| Renderer.Renderer.Seek | src/upnp_transport.c:967-994 | the error cases; only relative times do anything, other units are ignored |
| Renderer.Renderer.UpdateTrackTime | src/upnp_transport.c:782-797 | one event: duration and position of the output are printed into their variables; which is which is in TransportEffects.TimesAreShown |
| Renderer.Renderer.OnPlayState | src/output_silan.c:475-500 | a player message is one event of output and transport |
| Renderer.Renderer.OnRadioKey | src/output_silan.c:170-181 | the S/PDIF key selects the input and stops the transport |
| Renderer.Renderer.HandleActionRequest | src/upnp_device.c:308-378 | a request is its handler's event inside one more level of transaction |
| Renderer.PlaybackRequests | src/upnp_transport.c:828-965 | requests to stop, pause and play: the state each one leaves and the messages it sends |
| Renderer.UriRequests | src/upnp_transport.c:642-698 | the two requests that set a URI change the one of the output that they name, and no other |
| Renderer.TimeRequests | src/upnp_transport.c:782-988 | a seek to a relative time sends that time, a request for the position asks for it and stores the answer |
| SilanOutput.Output.constructor | src/output_silan.c:529-611 | after init: stopped, S/PDIF selected and the player told so if the queue takes it, amplifier muted and then powered, lines accordingly, no URIs, no times |
| SilanOutput.Output.SendCommand | src/output_silan.c:270-363 | the message is sent exactly if the queue takes it |
| SilanOutput.Output.SetSpdifIn | src/output_silan.c:604-611 | selects the input and tells the player, once |
| SilanOutput.Output.SetUri | src/output_silan.c:613-619 | an empty URI is none |
| SilanOutput.Output.SetNextUri | src/output_silan.c:621-627 | an empty URI is none |
| SilanOutput.Output.Play | src/output_silan.c:629-651 | a pending URI is played from its start and used up, with the times of the track before cleared (see TrackTimes.NewTrackDoesNotEnd); otherwise a paused player goes on; anything else fails |
| SilanOutput.Output.ReceivePlayState | src/output_silan.c:475-500 | at the end of a stream the next URI is sent and becomes pending, and what the transport is told |
| SilanOutput.Output.GetPosition | src/output_silan.c:672-681 | asks the player and returns what is stored, answered or not |
| SilanOutput.Output.SetAmpMute | src/output_silan.c:727-735 | the line is written when the status changes |
| SilanOutput.Output.SetAmpPower | src/output_silan.c:737-747 | the amplifier's state and the writes to its lines, in order, when the power is switched: the mute line first, unless it is high already |
| Watchdog.PowerIsSwitchedMuted | src/output_silan.c:737-741 | in every run of the loop the power line is only written while the mute line is high |
| Watchdog.Loop | src/output_silan.c:145-255 | the loop over any finite number of turns has the effect of the turns one by one |
| Watchdog.WatchdogExplained | src/output_silan.c:206-253 | in every run both counters are the bad ticks since the last good one of their mode, capped at 301 and 121; the lines match the status; an unpowered amplifier is muted; a powered one is unmuted exactly from the fourth tick of its stretch of power on |
| Watchdog.ChangesByTick | src/output_silan.c:218-252 | power is cut only in the tick that makes 301 bad S/PDIF ticks in a row, S/PDIF is selected exactly in the one that makes 121 in the other mode, unmuting happens only in the fourth powered tick |
| Watchdog.SilencePowersOffIff | src/output_silan.c:218-225 | enough silence on S/PDIF cuts the power if and only if the counter has not passed its limit before |
| Watchdog.StaysOnAfterInterlude | src/output_silan.c:210-243 | after silence, a track, and S/PDIF again without a signal the amplifier stays on for ever |
| Watchdog.KeepsPowerFor300 | src/output_silan.c:218-225 | without a signal on S/PDIF the amplifier has power after n ticks if and only if n is at most 300 |
| Watchdog.SelectsSpdifAfter120 | src/output_silan.c:235-241 | while nothing is played the S/PDIF input is selected by the 121st tick and by no other, with its two messages |
| Watchdog.UnmutesAfter3 | src/output_silan.c:212-252 | a signal powers the amplifier with the first tick and unmutes it with the fourth, whatever the counters were |
| Amplifier.SystemExplained | src/output_silan.c:206-253 | in every run of the whole system, with its actions, messages, keys and ticks, counters, status and lines of the amplifier are explained by the ticks alone |
| Amplifier.SpdifIff | src/output_silan.c:604-651 | over runs, S/PDIF is selected exactly as the last of these events tells: its key, the tick that selects it, or Play of a pending URI, even in vain |
| Amplifier.PlayingInSpdifIff | src/output_silan.c:227-242 | over runs, a playing transport is in S/PDIF mode if and only if it began to play in that mode without a pending URI, or a tick selected the mode since |
| Amplifier.PlayingLosesPowerIff | src/output_silan.c:210-225 | over runs, a tick cuts the power of a playing transport if and only if it is in S/PDIF mode and this is the 301st tick in a row in that mode without a lock |
| Amplifier.ResumedInSpdif | src/output_silan.c:235-242 | a paused track that is resumed after the tick that selects S/PDIF plays in that mode |
| Amplifier.PlayingWithoutPower | src/output_silan.c:218-225 | a playing transport in S/PDIF mode is without power after 301 ticks without a lock, and still shown as playing |
| UpnpTime.DivideLeaveRemainder | src/upnp_transport.c:736-740 | quotient and remainder of C's truncating division, the remainder left in place, smaller than the divisor and with the sign of the dividend |
| UpnpTime.PrintUpnpTime | src/upnp_transport.c:741-746 | the text for any time, negative ones too |
| UpnpTime.RoundTripIff | src/upnp_transport.c:741-753 | a printed time parses back to itself if and only if it is not negative, or has less than ten minutes and ten seconds beyond its hours and minutes |
| UpnpTime.PrintedForm | src/upnp_transport.c:741-746 | a time from zero on is printed as its hours, a colon, two digits for the minutes, a colon, two digits for the seconds |
| UpnpTime.DigitsAreParsed | src/upnp_transport.c:747-753 | digits with colons between them are read as hours, minutes and seconds, a number alone as hours |
| UpnpTime.PrintFits | src/upnp_transport.c:783 | any 32-bit time fits the buffer of 32 characters |
| IrDecoder.Width | tmp/ir/ir_lg_input.c:179-181 | a width is the time between two edges exactly if that is not negative and below 2^32 microseconds |
| IrDecoder.Receiver.Isr | tmp/ir/ir_lg_input.c:173-301 | an interrupt appends its width to the trace, and the fields are those of the automaton on that trace, which RemoteControl ties to widths in microseconds |
| IrDecoder.PhasesAreExact | tmp/ir/ir_lg_input.c:196-291 | on every trace the decoder waits for a header exactly where a frame may begin, for its space exactly after a header pulse there, and for a gap exactly where a frame or repeat burst ended |
| IrDecoder.PublishesFrames | tmp/ir/ir_lg_input.c:256-291 | on every trace a word is published exactly when the last 67 widths are a frame, each within tolerance, at a place where one may begin; it is their 32 bits, most significant first; never more than 32 bits are counted, and the word is below 2^idx |
| IrDecoder.AnyWordIsDecoded | tmp/ir/ir_lg_input.c:196-291 | from any state, a long silence and any encoding of any 32-bit word within tolerance publish that word, with exactly one piece of work; RemoteControl.WordIsSentIff says what an encoding is in microseconds |
| IrDecoder.WorkIsExact | tmp/ir/ir_lg_input.c:213-262 | on every trace the scheduled work, the published word and the counter of repetitions are what the language of frames and bursts says |
| IrDecoder.HeldKeyRepeats | tmp/ir/ir_lg_input.c:242-246 | a frame and k repetitions schedule its word once and then k-1 more times, none more for k = 0 |
| IrDecoder.RepetitionsWithoutFrame | tmp/ir/ir_lg_input.c:213-246 | a witness: three repeat bursts after a silence schedule work although no frame was ever received |
| IrRepeats.RepeatsWithoutFrameIff | tmp/ir/ir_lg_input.c:213-246 | on every trace without a whole frame, work is scheduled if and only if more than two gaps followed a burst with no frame beginning in between, and all of it carries the word 0 |
| IrRepeats.RepeatWorkIsOfLastFrameIff | tmp/ir/ir_lg_input.c:214-260 | on every trace, the word that a repetition schedules is that of the frame that began last if and only if this frame was received whole; otherwise it is that of an older frame that was over before this one began, or 0 |
| IrRepeats.GarbledFrameRepeatsOldKey | tmp/ir/ir_lg_input.c:214-246 | for every word: after its frame, a garbled frame of another key that is held down schedules the first word again |
| IrRepeats.EveryWordIsEncoded | tmp/ir/ir_lg_input.c:256-291 | every word has a frame that encodes it, wherever it stands in a trace |
| RemoteControl.WordIsSentIff | tmp/ir/ir_lg_input.c:19-26 | the language of frames, width by width in microseconds: a trace encodes a word if and only if it has a pulse of 8900 to 9100, a space of 4400 to 4600, for each bit a pulse of 410 to 610 and a space of 1650 to 1850 for a 1 or of 500 to 700 for a 0, the most significant first, and a last pulse |
| RemoteControl.RepeatIsSentIff | tmp/ir/ir_lg_input.c:19-26 | a repeat burst is a pulse of 8900 to 9100, a space of 2200 to 2400 and a pulse of 410 to 610, and the gap in front of one has 9101 to 96500 microseconds |
| RemoteControl.SentWordIsDecoded | tmp/ir/ir_lg_input.c:196-291 | from any state, a silence of more than 96500 microseconds and the signal of any 32-bit word publish just this word, once |
| RemoteControl.OnlySentWordsAreDecoded | tmp/ir/ir_lg_input.c:256-283 | the converse, on every trace from power-on: a word is published only if the last 67 widths are its signal, after a silence of more than 9100 microseconds |
| RemoteControl.HeldKeyIsDecoded | tmp/ir/ir_lg_input.c:214-246 | the same with k repeat bursts in microseconds: the word is scheduled once and k-1 more times |
| RemoteControl.KeysDifferInTwoBytes | tmp/ir/ir_lg_input.c:42-109 | two different words that mean keys differ in each of their last two bytes, because the second byte of every code is the complement of the first: no error in one byte turns a key into another one |
| RemoteControl.PowerAndRadio | tmp/ir/ir_lg_input.c:46-47 | 0x20DF10EF is POWER and 0x20DF0FF0 is RADIO, and their complements mean nothing |
| IrDecoder.ShiftFits | tmp/ir/ir_lg_input.c:276-283 | the 32-bit shift never loses a bit |
| IrDecoder.Produce | tmp/ir/ir_lg_input.c:137-171 | a word gives the key of the first table entry for its low half if its high half is 0x20DF, and no key otherwise |
| NoiseFilter.NoiseFilter.Frbwrite | tmp/lirc_silan.c:91-132 | one sample takes the filter's fields and its output to what the step says, for any input |
| NoiseFilter.FilterDenoises | tmp/lirc_silan.c:91-132 | for every alternating stream, what was written and what is held back are together the stream with each group of long spaces and glitches between them merged into one space |
| NoiseFilter.GroupsPartition | tmp/lirc_silan.c:115-124 | these groups partition the stream in order, are single samples or long spaces with glitches between, and each sample that is left is one of them, or a space of min(PULSE_MASK, exact sum) |
| NoiseFilter.OutputIsClean | tmp/lirc_silan.c:91-132 | at any moment the output alternates and has no pulse of at most 250 with spaces above 20000 on both sides; with what is held back it lasts as long as the input if and only if no merged space exceeds PULSE_MASK |
| NoiseFilter.ClampsAgree | tmp/lirc_silan.c:116-121 | merging with the filter's two clamps, whatever is merged later, gives what a single clamp of the exact sum gives |
| NoiseFilter.TimeIsConserved | tmp/lirc_silan.c:115-121 | merging never adds time, and keeps it all exactly when nothing saturates |
| NoiseFilter.DenoiseTwice | tmp/lirc_silan.c:91-132 | a stream that was filtered is not changed by filtering it again |
| EdgeDriver.EdgeSample | tmp/lirc_silan.c:152-180 | no edge is shorter than the pause before it, up to 0xFFFFFF; it is exact within 15 seconds; a longer pause is a space of 0xFFFFFF; a clock that went back gives 0xFFFFFF and keeps the meaning of the level |
| EdgeDriver.Driver.IrqHandler | tmp/lirc_silan.c:134-187 | nothing happens while the sense is unknown; otherwise one sample is filtered, and the sense is turned round when it would make a pulse of a long pause; the filter has always seen just the samples of all edges so far |
| EdgeDriver.LongPauseIsHeldBack | tmp/lirc_silan.c:109-176 | whatever the sense, a pause of more than 15 seconds reaches an idle filter as a space of 0xFFFFFF, which it holds back, and leaves the sense right |
| EdgeDriver.AlternatesIff | tmp/lirc_silan.c:163-180 | for every signal that changes its level with every edge, whatever its clock does, the filter is fed pulses and spaces in turn if and only if no long pause but the first edge turns the sense |
| EdgeDriver.EdgesAreDenoised | tmp/lirc_silan.c:91-187 | for every signal that changes its level with every edge, unless a long pause but the first edge turns the sense: the filter's output and what it holds back are the denoised samples, and the output is clean |
| EdgeDriver.EdgesKeepTime | tmp/lirc_silan.c:152-180 | without long pauses the sense is never turned, and output and what is held back last as long as the signal if and only if no merged space saturates |
| EdgeDriver.NoiseInMicroseconds | tmp/lirc_silan.c:96-124 | in numbers: a pulse between two spaces is merged with them if and only if it has at most 250 microseconds and both spaces more than 20000; otherwise all is written as it came |
| Memory.CopyTo | src/xmlescape.c:42-51 | text is put in its place, the rest of the buffer is kept |
| XmlEscape.XmlEscapeReal | src/xmlescape.c:34-80 | both passes give the same length; the writing one fills just as many cells and a NUL, and keeps the rest |
| XmlEscape.XmlEscape | src/xmlescape.c:82-91 | the allocated buffer is filled exactly |
| XmlEscape.RoundTrip | src/xmlescape.c:40-56 | a reader that decodes the entities recovers every text escaped as content |
| XmlEscape.ContentIsInjective | src/variable-container.c:300 | different documents are escaped differently, so the notified text determines the document |
| XmlEscape.NoMarkup | src/xmlescape.c:41-52 | no angle bracket is left, and no quotation mark in an attribute |
| XmlEscape.AttributeRoundTripIff | src/xmlescape.c:44-46 | escaped as an attribute a text is recovered if and only if it has no quotation mark |
| XmlEscape.AttributesClashIff | src/xmlescape.c:44-46 | two texts become the same attribute exactly if they are the same once quotation marks are replaced by %22 |
| XmlEscape.QuotationMarkClashes | src/xmlescape.c:44-46 | a quotation mark and the text %22 become the same attribute |
| MimeTypes.Registry.RegisterInternal | src/upnp_connmgr.c:193-207 | a type is put in front unless it is there |
| MimeTypes.Registry.Register | src/upnp_connmgr.c:209-250 | a type and its aliases are added in this order |
| MimeTypes.AddingKeepsDistinct | src/upnp_connmgr.c:196-206 | registering keeps earlier types in their order, and none comes twice |
| MimeTypes.AddingAddsAll | src/upnp_connmgr.c:193-207 | the types registered are those from before and the new ones |
| MimeTypes.BuildAnnouncement | src/upnp_connmgr.c:270-292 | the buffer that grows by length + 14 for each type is filled exactly with the comma-separated entries and a NUL |
| MimeTypes.SplitFindsEntriesIff | src/upnp_connmgr.c:281-286 | splitting the announcement at its commas gives the entries back if and only if no type contains a comma |
| MimeTypes.RegisteredNames | src/upnp_connmgr.c:209-250 | what each type leaves in an empty registry, by name, with its aliases |
| MimeTypes.AudioIsAnnounced | src/output_silan.c:597 | the type that the silan output registers is announced as http-get:*:audio/*:* |

## Left out

- The text of a document: a document is its sequence of pairs, and libupnp, ixml and SOAP parsing are not part of this model. The attribute `channel="Master"` that the builder adds for volume variables depends on the name alone and is not in the pairs.
- Renderer.Renderer.constructor: states the initial contents only of the variables that later events rely on; the others are listed in TransportNames.DefaultOf.
- VariableContainer.VariableTable.Change: models one collector and the logging callback per table, which are all that the program registers; the old value passed to callbacks is not modelled, as none of them uses it.
- The window between the start of the device and upnp_transport_init, in which there is no collector: the model starts after it.
- Threads inside one event: a message of the player, a key, an idle tick and a handler's section are atomic, so races on the status bits and on position and duration are not modelled. update_track_time reads the output before it takes the lock; here that is one event.
- SilanOutput.Output.SendCommand: does not model the wait for an answer and its time-out beyond the parameters that say whether the queue takes the message and what the player answered; messages that the queue takes are never lost.
- The return values of the GPIO writes, which the code ignores; the reading of configuration files, logging, and select and sleep.
- Volume and mute of the output and the RenderingControl service: their changes are more of the same table, and the Mute variable need not equal the output's mute.
- Watchdog.Loop: other threads act between turns, by changing play state and input; volume and mute keys do nothing here.
- UpnpTime.PrintUpnpTime: models unbounded integers, of which the 32-bit ones fit the buffer; sscanf beyond the range of int is undefined in C and not modelled.
- Renderer.Renderer.ServiceLock: does not model the mutex, which the methods of one event never share; `Bracketing.dfy` models it between events.
- SilanOutput.Output.GetPosition: models one answer about the position during the wait; other messages of the player are events before or after it.
- IrDecoder.Receiver.Isr: does not model the wrap-around of the repetition counter after 2^31 gaps; work that is scheduled while the same work is still waiting runs once in the kernel, here each scheduling is listed.
- IrDecoder.Produce: gives the name of the key, as the numbers of linux/input.h are not part of this model.
- NoiseFilter.NoiseFilter.Frbwrite: takes samples of 25 bits, which is all that EdgeDriver.Driver.IrqHandler ever passes; the int of the source could hold more.
- NoiseFilter.NoiseFilter.Rbwrite: does not model a full ring buffer, which drops samples. PULSE_BIT and PULSE_MASK are those of linux's lirc.h, which is not part of this model.
- NoiseFilter.FilterDenoises: for alternating streams of widths up to PULSE_MASK only; for others the step is modelled but nothing is claimed.
- MimeTypes.BuildAnnouncement: at least one type is registered; for none the code writes behind an empty buffer. Failing allocations are not modelled.
- XmlEscape.XmlEscapeReal: does not model texts whose escaped length exceeds an int.
- Answers to requests: the variables that are appended to an action's response, error texts, and the query of a single variable.
- The web server, the device description, the control of volume, the choice of the output module and the command line; tmp/ir_input.c, which is the same decoder again.
