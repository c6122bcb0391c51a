/** The table of the AVTransport service: the names of its variables and what they
    hold at first. */
module TransportNames {
  import opened Options
  import opened LastChange

  function NameOf(v: nat): string {
    match v
    case 0 => "TransportStatus"
    case 1 => "NextAVTransportURI"
    case 2 => "NextAVTransportURIMetaData"
    case 3 => "CurrentTrackMetaData"
    case 4 => "RelativeCounterPosition"
    case 5 => "A_ARG_TYPE_InstanceID"
    case 6 => "A_ARG_TYPE_SeekTarget"
    case 7 => "PlaybackStorageMedium"
    case 8 => "RelativeTimePosition"
    case 9 => "PossibleRecordStorageMedia"
    case 10 => "CurrentPlayMode"
    case 11 => "TransportPlaySpeed"
    case 12 => "PossiblePlaybackStorageMedia"
    case 13 => "AbsoluteTimePosition"
    case 14 => "CurrentTrack"
    case 15 => "CurrentTrackURI"
    case 16 => "CurrentTransportActions"
    case 17 => "NumberOfTracks"
    case 18 => "AVTransportURI"
    case 19 => "AbsoluteCounterPosition"
    case 20 => "CurrentRecordQualityMode"
    case 21 => "CurrentMediaDuration"
    case 22 => "A_ARG_TYPE_SeekMode"
    case 23 => "AVTransportURIMetaData"
    case 24 => "RecordStorageMedium"
    case 25 => "RecordMediumWriteStatus"
    case 26 => "LastChange"
    case 27 => "CurrentTrackDuration"
    case 28 => "TransportState"
    case 29 => "PossibleRecordQualityModes"
    case _ => ""
  }

  function DefaultOf(v: nat): string {
    match v
    case 0 => "OK"
    case 1 => ""
    case 2 => ""
    case 3 => ""
    case 4 => "2147483647"
    case 5 => "0"
    case 6 => ""
    case 7 => "SPDIF"
    case 8 => "0:00:00"
    case 9 => "NOT_IMPLEMENTED"
    case 10 => "NORMAL"
    case 11 => "1"
    case 12 => "SPDIF,UNKNOWN"
    case 13 => "NOT_IMPLEMENTED"
    case 14 => "0"
    case 15 => ""
    case 16 => "PLAY"
    case 17 => "0"
    case 18 => ""
    case 19 => "2147483647"
    case 20 => "NOT_IMPLEMENTED"
    case 21 => ""
    case 22 => "TRACK_NR"
    case 23 => ""
    case 24 => "NOT_IMPLEMENTED"
    case 25 => "NOT_IMPLEMENTED"
    case 26 => "<Event xmlns=\"urn:schemas-upnp-org:metadata-1-0/AVT/\"/>"
    case 27 => "0:00:00"
    case 28 => "STOPPED"
    case 29 => "NOT_IMPLEMENTED"
    case _ => ""
  }

  /** Thirty variables, and a last slot without name and content. */
  function Names(): (r: seq<Option<string>>)
    ensures |r| == 31 && r[26] == Some("LastChange")
    ensures forall v :: 0 <= v < 30 ==> r[v].Some?
  {
    seq(31, v requires 0 <= v < 31 => if v < 30 then Some(NameOf(v)) else None)
  }

  function Defaults(): (r: seq<Option<Value>>)
    ensures |r| == 31
  {
    seq(31, v requires 0 <= v < 31 => if v < 30 then Some(Text(DefaultOf(v))) else None)
  }

  /** The slot of a name, which shows that no two slots share one: names of different
      length differ, and those of equal length differ in one of a few characters. */
  function SlotOf(n: string): nat {
    match |n|
    case 10 => 26
    case 12 => 14
    case 14 => if n[0] == 'N' then 17 else if n[0] == 'A' then 18 else 28
    case 15 => if n[7] == 'r' then 0 else if n[7] == 'P' then 10 else 15
    case 18 => if n[0] == 'N' then 1 else 11
    case 19 => if n[0] == 'A' then 22 else 24
    case 20 => SlotOfTwenty(n)
    case 21 => if n[0] == 'P' then 7 else if n[11] == 'I' then 5 else 6
    case 22 => 23
    case 23 => SlotOfTwentyThree(n)
    case 24 => 20
    case 26 => if n[0] == 'N' then 2 else if n[14] == 'S' then 9 else 29
    case 28 => 12
    case _ => 30
  }

  /** Current or relative or absolute; then media or track; then metadata or duration. */
  function SlotOfTwenty(n: string): nat
    requires |n| == 20
  {
    if n[0] == 'R' then 8
    else if n[0] == 'A' then 13
    else if n[7] == 'M' then 21
    else if n[12] == 'M' then 3
    else 27
  }

  function SlotOfTwentyThree(n: string): nat
    requires |n| == 23
  {
    if n[0] == 'C' then 16
    else if n[0] == 'A' then 19
    else if n[2] == 'l' then 4
    else 25
  }

  lemma SlotsFrom0()
    ensures SlotOf("TransportStatus") == 0
    ensures SlotOf("NextAVTransportURI") == 1
    ensures SlotOf("NextAVTransportURIMetaData") == 2
    ensures SlotOf("CurrentTrackMetaData") == 3
    ensures SlotOf("RelativeCounterPosition") == 4
  {
  }

  lemma SlotsFrom5()
    ensures SlotOf("A_ARG_TYPE_InstanceID") == 5
    ensures SlotOf("A_ARG_TYPE_SeekTarget") == 6
    ensures SlotOf("PlaybackStorageMedium") == 7
    ensures SlotOf("RelativeTimePosition") == 8
    ensures SlotOf("PossibleRecordStorageMedia") == 9
  {
  }

  lemma SlotsFrom10()
    ensures SlotOf("CurrentPlayMode") == 10
    ensures SlotOf("TransportPlaySpeed") == 11
    ensures SlotOf("PossiblePlaybackStorageMedia") == 12
    ensures SlotOf("AbsoluteTimePosition") == 13
    ensures SlotOf("CurrentTrack") == 14
  {
  }

  lemma SlotsFrom15()
    ensures SlotOf("CurrentTrackURI") == 15
    ensures SlotOf("CurrentTransportActions") == 16
    ensures SlotOf("NumberOfTracks") == 17
    ensures SlotOf("AVTransportURI") == 18
    ensures SlotOf("AbsoluteCounterPosition") == 19
  {
  }

  lemma SlotsFrom20()
    ensures SlotOf("CurrentRecordQualityMode") == 20
    ensures SlotOf("CurrentMediaDuration") == 21
    ensures SlotOf("A_ARG_TYPE_SeekMode") == 22
    ensures SlotOf("AVTransportURIMetaData") == 23
    ensures SlotOf("RecordStorageMedium") == 24
  {
  }

  lemma SlotsFrom25()
    ensures SlotOf("RecordMediumWriteStatus") == 25
    ensures SlotOf("LastChange") == 26
    ensures SlotOf("CurrentTrackDuration") == 27
    ensures SlotOf("TransportState") == 28
    ensures SlotOf("PossibleRecordQualityModes") == 29
  {
  }

  lemma SlotIsInverse(v: nat)
    requires v < 30
    ensures SlotOf(NameOf(v)) == v
  {
    if v < 15 {
      EarlySlots(v);
    } else {
      LateSlots(v);
    }
  }

  lemma EarlySlots(v: nat)
    requires v < 15
    ensures SlotOf(NameOf(v)) == v
  {
    if v < 5 {
      SlotsFrom0();
    } else if v < 10 {
      SlotsFrom5();
    } else {
      SlotsFrom10();
    }
  }

  lemma LateSlots(v: nat)
    requires 15 <= v < 30
    ensures SlotOf(NameOf(v)) == v
  {
    if v < 20 {
      SlotsFrom15();
    } else if v < 25 {
      SlotsFrom20();
    } else {
      SlotsFrom25();
    }
  }

  lemma SlotsDiffer(i: nat, j: nat)
    requires i < 30 && j < 30 && i != j
    ensures NameOf(i) != NameOf(j)
  {
    SlotIsInverse(i);
    SlotIsInverse(j);
  }

  lemma NamesAreDistinct()
    ensures DistinctNames(Names())
  {
    forall i: nat, j: nat | i < j < 31 && Names()[i].Some?
      ensures Names()[i] != Names()[j]
    {
      if j < 30 {
        SlotsDiffer(i, j);
      }
    }
  }
}
