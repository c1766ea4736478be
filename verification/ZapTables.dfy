/** The names in the setting tables of channel files: no two are alike, and none could break a line or a field. */
module ZapTables {
  import opened ConfigText
  import opened Wrappers
  import opened Zapchannel

  predicate IsWordChar(c: char) {
    'A' <= c <= 'Z' || '0' <= c <= '9' || c == '_'
  }

  predicate Word(t: string) {
    forall i :: 0 <= i < |t| ==> IsWordChar(t[i])
  }

  predicate Words(settings: seq<Setting>) {
    forall i :: 0 <= i < |settings| ==> Word(settings[i].name)
  }

  predicate Sound(settings: seq<Setting>) {
    NamesDiffer(settings) && Words(settings)
  }

  predicate NamesLack(settings: seq<Setting>, c: char) {
    forall i :: 0 <= i < |settings| ==> Lacks(settings[i].name, c)
  }

  lemma InversionsSound()
    ensures Sound(INVERSIONS)
  {
    assert Word("INVERSION_ON") && Word("INVERSION_OFF") && Word("INVERSION_AUTO");
    hide Word;
    assert |"INVERSION_ON"| == 12 && |"INVERSION_OFF"| == 13;
  }

  lemma FecsDiffer()
    ensures NamesDiffer(FECS)
  {
    assert "FEC_1_2"[4] == '1' && "FEC_2_3"[4] == '2' && "FEC_3_4"[4] == '3' && "FEC_4_5"[4] == '4' && "FEC_5_6"[4] == '5'
        && "FEC_6_7"[4] == '6' && "FEC_7_8"[4] == '7' && "FEC_8_9"[4] == '8' && "FEC_AUTO"[4] == 'A' && "FEC_NONE"[4] == 'N';
    forall i, j | 0 <= i < j < |FECS|
      ensures FECS[i].name != FECS[j].name
    {
      assert FECS[i].name[4] != FECS[j].name[4];
    }
  }

  lemma FecsSound()
    ensures Sound(FECS)
  {
    FecsDiffer();
    hide NamesDiffer;
    assert Word("FEC_1_2") && Word("FEC_2_3") && Word("FEC_3_4") && Word("FEC_4_5") && Word("FEC_5_6") && Word("FEC_6_7")
        && Word("FEC_7_8") && Word("FEC_8_9") && Word("FEC_AUTO") && Word("FEC_NONE");
    hide Word;
  }

  lemma DvbcModulationsDiffer()
    ensures NamesDiffer(DVBC_MODULATIONS)
  {
    assert |"QAM_16"| == 6 && |"QAM_32"| == 6 && |"QAM_64"| == 6 && |"QAM_128"| == 7 && |"QAM_256"| == 7 && |"QAM_AUTO"| == 8;
    assert "QAM_16"[4] == '1' && "QAM_32"[4] == '3' && "QAM_64"[4] == '6' && "QAM_128"[4] == '1' && "QAM_256"[4] == '2';
  }

  lemma DvbcModulationsSound()
    ensures Sound(DVBC_MODULATIONS)
  {
    DvbcModulationsDiffer();
    hide NamesDiffer;
    assert Word("QAM_16") && Word("QAM_32") && Word("QAM_64") && Word("QAM_128") && Word("QAM_256") && Word("QAM_AUTO");
    hide Word;
  }

  lemma BandwidthsSound()
    ensures Sound(BANDWIDTHS)
  {
    assert "BANDWIDTH_6_MHZ"[10] == '6' && "BANDWIDTH_7_MHZ"[10] == '7' && "BANDWIDTH_8_MHZ"[10] == '8'
        && "BANDWIDTH_AUTO"[10] == 'A';
    assert Word("BANDWIDTH_6_MHZ") && Word("BANDWIDTH_7_MHZ") && Word("BANDWIDTH_8_MHZ") && Word("BANDWIDTH_AUTO");
    hide Word;
  }

  lemma ConstellationsDiffer()
    ensures NamesDiffer(CONSTELLATIONS)
  {
    assert |"QAM_16"| == 6 && |"QAM_32"| == 6 && |"QAM_64"| == 6 && |"QAM_128"| == 7 && |"QAM_256"| == 7 && |"QPSK"| == 4
        && |"QAM_AUTO"| == 8;
    assert "QAM_16"[4] == '1' && "QAM_32"[4] == '3' && "QAM_64"[4] == '6' && "QAM_128"[4] == '1' && "QAM_256"[4] == '2';
  }

  lemma ConstellationsSound()
    ensures Sound(CONSTELLATIONS)
  {
    ConstellationsDiffer();
    hide NamesDiffer;
    assert Word("QAM_16") && Word("QAM_32") && Word("QAM_64") && Word("QAM_128") && Word("QAM_256") && Word("QPSK")
        && Word("QAM_AUTO");
    hide Word;
  }

  lemma TransmissionModeWords()
    ensures Word("TRANSMISSION_MODE_2K") && Word("TRANSMISSION_MODE_8K")
  {
  }

  lemma AutoTransmissionMode()
    ensures Word("TRANSMISSION_MODE_AUTO")
  {
  }

  lemma TransmissionModesSound()
    ensures Sound(TRANSMISSION_MODES)
  {
    TransmissionModeWords();
    AutoTransmissionMode();
    hide Word;
    assert "TRANSMISSION_MODE_2K"[18] == '2' && "TRANSMISSION_MODE_8K"[18] == '8' && "TRANSMISSION_MODE_AUTO"[18] == 'A';
  }

  lemma GuardIntervalsDiffer()
    ensures NamesDiffer(GUARD_INTERVALS)
  {
    assert "GUARD_INTERVAL_1_32"[17] == '3' && "GUARD_INTERVAL_1_16"[17] == '1' && "GUARD_INTERVAL_1_8"[17] == '8'
        && "GUARD_INTERVAL_1_4"[17] == '4' && "GUARD_INTERVAL_AUTO"[17] == 'T';
  }

  lemma LongGuardIntervals()
    ensures Word("GUARD_INTERVAL_1_32") && Word("GUARD_INTERVAL_1_16")
  {
  }

  lemma ShortGuardIntervals()
    ensures Word("GUARD_INTERVAL_1_8") && Word("GUARD_INTERVAL_1_4")
  {
  }

  lemma AutoGuardInterval()
    ensures Word("GUARD_INTERVAL_AUTO")
  {
  }

  lemma GuardIntervalsSound()
    ensures Sound(GUARD_INTERVALS)
  {
    GuardIntervalsDiffer();
    LongGuardIntervals();
    ShortGuardIntervals();
    AutoGuardInterval();
    hide NamesDiffer, Word;
  }

  lemma HierarchiesSound()
    ensures Sound(HIERARCHIES)
  {
    assert "HIERARCHY_1"[10] == '1' && "HIERARCHY_2"[10] == '2' && "HIERARCHY_4"[10] == '4' && "HIERARCHY_AUTO"[10] == 'A'
        && "HIERARCHY_NONE"[10] == 'N';
    assert Word("HIERARCHY_1") && Word("HIERARCHY_2") && Word("HIERARCHY_4") && Word("HIERARCHY_AUTO")
        && Word("HIERARCHY_NONE");
    hide Word;
  }

  lemma AtscModulationsSound()
    ensures Sound(ATSC_MODULATIONS)
  {
    assert |"8VSB"| == 4 && |"16VSB"| == 5 && |"QAM_64"| == 6 && |"QAM_256"| == 7;
    assert Word("8VSB") && Word("16VSB") && Word("QAM_64") && Word("QAM_256");
    hide Word;
  }

  // ----- what tells the kinds of line apart

  predicate NamesStart(settings: seq<Setting>, p: string) {
    forall i :: 0 <= i < |settings| ==> StartsWith(settings[i].name, p)
  }

  lemma FecsStart()
    ensures NamesStart(FECS, "FEC_")
  {
    assert "FEC_1_2"[..4] == "FEC_" && "FEC_2_3"[..4] == "FEC_" && "FEC_3_4"[..4] == "FEC_" && "FEC_4_5"[..4] == "FEC_"
        && "FEC_5_6"[..4] == "FEC_" && "FEC_6_7"[..4] == "FEC_" && "FEC_7_8"[..4] == "FEC_" && "FEC_8_9"[..4] == "FEC_"
        && "FEC_AUTO"[..4] == "FEC_" && "FEC_NONE"[..4] == "FEC_";
  }

  lemma HierarchiesStart()
    ensures NamesStart(HIERARCHIES, "HIERARCHY_")
  {
    assert "HIERARCHY_1"[..10] == "HIERARCHY_" && "HIERARCHY_2"[..10] == "HIERARCHY_" && "HIERARCHY_4"[..10] == "HIERARCHY_"
        && "HIERARCHY_AUTO"[..10] == "HIERARCHY_" && "HIERARCHY_NONE"[..10] == "HIERARCHY_";
  }

  /** No name of a DVB-C line has an H, so that none looks like a hierarchy. */
  lemma DvbcLackH()
    ensures NamesLack(INVERSIONS, 'H') && NamesLack(DVBC_MODULATIONS, 'H')
  {
    assert Lacks("INVERSION_ON", 'H') && Lacks("INVERSION_OFF", 'H') && Lacks("INVERSION_AUTO", 'H');
    assert Lacks("QAM_16", 'H') && Lacks("QAM_32", 'H') && Lacks("QAM_64", 'H') && Lacks("QAM_128", 'H')
        && Lacks("QAM_256", 'H') && Lacks("QAM_AUTO", 'H');
    hide Lacks;
  }

  lemma FecsLackH()
    ensures NamesLack(FECS, 'H')
  {
    assert Lacks("FEC_1_2", 'H') && Lacks("FEC_2_3", 'H') && Lacks("FEC_3_4", 'H') && Lacks("FEC_4_5", 'H')
        && Lacks("FEC_5_6", 'H') && Lacks("FEC_6_7", 'H') && Lacks("FEC_7_8", 'H') && Lacks("FEC_8_9", 'H')
        && Lacks("FEC_AUTO", 'H') && Lacks("FEC_NONE", 'H');
    hide Lacks;
  }

  lemma AtscLackF()
    ensures NamesLack(ATSC_MODULATIONS, 'F')
  {
    assert Lacks("8VSB", 'F') && Lacks("16VSB", 'F') && Lacks("QAM_64", 'F') && Lacks("QAM_256", 'F');
    hide Lacks;
  }

  /** An ATSC modulation with its colon has one of the two marks of an ATSC line. */
  lemma AtscMarked(i: nat)
    requires i < |ATSC_MODULATIONS|
    ensures
      var name := ATSC_MODULATIONS[i].name;
      StartsWith(name, "QAM_") || exists k :: 0 <= k <= |name| && name[k..] == "VSB"
  {
    assert "8VSB"[1..] == "VSB" && "16VSB"[2..] == "VSB" && "QAM_64"[..4] == "QAM_" && "QAM_256"[..4] == "QAM_";
    assert ATSC_MODULATIONS[0].name == "8VSB" && ATSC_MODULATIONS[1].name == "16VSB";
  }

  // ----- the value that each name reads as, by the enumerations of lib/libdvbapi/dvbfe.h

  /** These names are read as these values, and no other name is read. */
  ghost predicate ReadsAs(settings: seq<Setting>, names: seq<string>, values: seq<int>) {
    && |names| == |values|
    && (forall i :: 0 <= i < |names| ==> SettingValue(names[i], settings) == Some(values[i]))
    && (forall name :: SettingValue(name, settings).Some? ==> name in names)
  }

  lemma {:induction false} NameIsListed(name: string, settings: seq<Setting>)
    requires SettingValue(name, settings).Some?
    ensures exists i :: 0 <= i < |settings| && settings[i].name == name
  {
    if settings[0].name != name {
      NameIsListed(name, settings[1..]);
      var i :| 0 <= i < |settings[1..]| && settings[1..][i].name == name;
      assert settings[i + 1].name == name;
    }
  }

  lemma TableReads(settings: seq<Setting>, names: seq<string>, values: seq<int>)
    requires NamesDiffer(settings) && |settings| == |names| == |values|
    requires forall i :: 0 <= i < |settings| ==> settings[i] == Setting(names[i], values[i])
    ensures ReadsAs(settings, names, values)
  {
    hide SettingValue;
    forall i | 0 <= i < |names|
      ensures SettingValue(names[i], settings) == Some(values[i])
    {
      ValueOfListed(settings, i);
    }
    forall name | SettingValue(name, settings).Some?
      ensures name in names
    {
      NameIsListed(name, settings);
      var i :| 0 <= i < |settings| && settings[i].name == name;
      assert names[i] == name;
    }
  }

  lemma InversionsReadAs()
    ensures ReadsAs(INVERSIONS,
       ["INVERSION_ON", "INVERSION_OFF", "INVERSION_AUTO"],
       [1, 0, 2])
  {
    InversionsSound();
    hide ReadsAs;
    TableReads(INVERSIONS,
       ["INVERSION_ON", "INVERSION_OFF", "INVERSION_AUTO"],
       [1, 0, 2]);
  }

  lemma FecsReadAs()
    ensures ReadsAs(FECS,
       ["FEC_1_2", "FEC_2_3", "FEC_3_4", "FEC_4_5", "FEC_5_6", "FEC_6_7", "FEC_7_8", "FEC_8_9", "FEC_AUTO",
        "FEC_NONE"],
       [1, 2, 3, 4, 5, 6, 7, 8, 9, 0])
  {
    FecsSound();
    hide ReadsAs;
    TableReads(FECS,
       ["FEC_1_2", "FEC_2_3", "FEC_3_4", "FEC_4_5", "FEC_5_6", "FEC_6_7", "FEC_7_8", "FEC_8_9", "FEC_AUTO",
        "FEC_NONE"],
       [1, 2, 3, 4, 5, 6, 7, 8, 9, 0]);
  }

  lemma DvbcModulationsReadAs()
    ensures ReadsAs(DVBC_MODULATIONS,
       ["QAM_16", "QAM_32", "QAM_64", "QAM_128", "QAM_256", "QAM_AUTO"],
       [0, 1, 2, 3, 4, 5])
  {
    DvbcModulationsSound();
    hide ReadsAs;
    TableReads(DVBC_MODULATIONS,
       ["QAM_16", "QAM_32", "QAM_64", "QAM_128", "QAM_256", "QAM_AUTO"],
       [0, 1, 2, 3, 4, 5]);
  }

  lemma BandwidthsReadAs()
    ensures ReadsAs(BANDWIDTHS,
       ["BANDWIDTH_6_MHZ", "BANDWIDTH_7_MHZ", "BANDWIDTH_8_MHZ", "BANDWIDTH_AUTO"],
       [2, 1, 0, 3])
  {
    BandwidthsSound();
    hide ReadsAs;
    TableReads(BANDWIDTHS,
       ["BANDWIDTH_6_MHZ", "BANDWIDTH_7_MHZ", "BANDWIDTH_8_MHZ", "BANDWIDTH_AUTO"],
       [2, 1, 0, 3]);
  }

  lemma ConstellationsReadAs()
    ensures ReadsAs(CONSTELLATIONS,
       ["QAM_16", "QAM_32", "QAM_64", "QAM_128", "QAM_256", "QPSK", "QAM_AUTO"],
       [1, 2, 3, 4, 5, 0, 6])
  {
    ConstellationsSound();
    hide ReadsAs;
    TableReads(CONSTELLATIONS,
       ["QAM_16", "QAM_32", "QAM_64", "QAM_128", "QAM_256", "QPSK", "QAM_AUTO"],
       [1, 2, 3, 4, 5, 0, 6]);
  }

  lemma TransmissionModesReadAs()
    ensures ReadsAs(TRANSMISSION_MODES,
       ["TRANSMISSION_MODE_2K", "TRANSMISSION_MODE_8K", "TRANSMISSION_MODE_AUTO"],
       [0, 1, 2])
  {
    TransmissionModesSound();
    hide ReadsAs;
    TableReads(TRANSMISSION_MODES,
       ["TRANSMISSION_MODE_2K", "TRANSMISSION_MODE_8K", "TRANSMISSION_MODE_AUTO"],
       [0, 1, 2]);
  }

  lemma GuardIntervalsReadAs()
    ensures ReadsAs(GUARD_INTERVALS,
       ["GUARD_INTERVAL_1_32", "GUARD_INTERVAL_1_16", "GUARD_INTERVAL_1_8", "GUARD_INTERVAL_1_4",
        "GUARD_INTERVAL_AUTO"],
       [0, 1, 2, 3, 4])
  {
    GuardIntervalsSound();
    hide ReadsAs;
    TableReads(GUARD_INTERVALS,
       ["GUARD_INTERVAL_1_32", "GUARD_INTERVAL_1_16", "GUARD_INTERVAL_1_8", "GUARD_INTERVAL_1_4",
        "GUARD_INTERVAL_AUTO"],
       [0, 1, 2, 3, 4]);
  }

  lemma HierarchiesReadAs()
    ensures ReadsAs(HIERARCHIES,
       ["HIERARCHY_1", "HIERARCHY_2", "HIERARCHY_4", "HIERARCHY_AUTO", "HIERARCHY_NONE"],
       [1, 2, 3, 4, 0])
  {
    HierarchiesSound();
    hide ReadsAs;
    TableReads(HIERARCHIES,
       ["HIERARCHY_1", "HIERARCHY_2", "HIERARCHY_4", "HIERARCHY_AUTO", "HIERARCHY_NONE"],
       [1, 2, 3, 4, 0]);
  }

  lemma AtscModulationsReadAs()
    ensures ReadsAs(ATSC_MODULATIONS,
       ["8VSB", "16VSB", "QAM_64", "QAM_256"],
       [2, 3, 0, 1])
  {
    AtscModulationsSound();
    hide ReadsAs;
    TableReads(ATSC_MODULATIONS,
       ["8VSB", "16VSB", "QAM_64", "QAM_256"],
       [2, 3, 0, 1]);
  }
}
