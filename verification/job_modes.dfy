/** Which job a directory of artifacts belongs to (_mode_for_job_dir of build_diagnostics_report.py). */
module JobModes {
  import opened StringOrder

  /** The keys of JOB_LABELS, in order. */
  const JOB_MODES := [
    "metadata", "unit_tests", "extension_boot", "protocol_negotiation", "delivery_local", "delivery_remote"]
  const CLIENT := "_client"
  const SERVER_SIDE := "_server"

  predicate EndsWith(s: string, suffix: string) {
    |suffix| <= |s| && s[|s| - |suffix|..] == suffix
  }

  function WithoutSuffix(s: string, suffix: string): string {
    if EndsWith(s, suffix) then s[..|s| - |suffix|] else s
  }

  /** The mode a profile stands for. */
  function RecordedMode(profile: string): string {
    WithoutSuffix(WithoutSuffix(profile, CLIENT), SERVER_SIDE)
  }

  /** A directory name that shows the mode between dashes, at its end, or alone. */
  predicate Shows(name: string, mode: string) {
    Contains(name, "-" + mode + "-") || EndsWith(name, "-" + mode) || name == mode
  }

  /** The first of the modes that a name shows. */
  function FirstShown(modes: seq<string>, name: string): string {
    if modes == [] then "" else if Shows(name, modes[0]) then modes[0] else FirstShown(modes[1..], name)
  }

  /** The recorded profile decides when it stands for a mode, and otherwise the name. */
  function ModeOf(profile: string, name: string): string {
    if RecordedMode(profile) in JOB_MODES then RecordedMode(profile) else FirstShown(JOB_MODES, name)
  }

  // ----- the code -----

  method ModeForJobDir(profile: string, name: string) returns (mode: string)
    ensures mode == ModeOf(profile, name)
  {
    var recorded := profile;
    recorded := WithoutSuffix(recorded, CLIENT);
    recorded := WithoutSuffix(recorded, SERVER_SIDE);
    if recorded in JOB_MODES {
      return recorded;
    }
    assert JOB_MODES[0..] == JOB_MODES;
    var i := 0;
    while i < |JOB_MODES|
      invariant 0 <= i <= |JOB_MODES|
      invariant FirstShown(JOB_MODES, name) == FirstShown(JOB_MODES[i..], name)
    {
      if Contains(name, "-" + JOB_MODES[i] + "-") || EndsWith(name, "-" + JOB_MODES[i]) || name == JOB_MODES[i] {
        return JOB_MODES[i];
      }
      assert JOB_MODES[i..][1..] == JOB_MODES[i + 1..];
      i := i + 1;
    }
    return "";
  }

  // ----- what it finds -----

  lemma {:induction false} FirstShownExactly(modes: seq<string>, name: string)
    requires "" !in modes
    ensures var mode := FirstShown(modes, name);
            if mode == "" then forall i :: 0 <= i < |modes| ==> !Shows(name, modes[i])
            else exists i :: 0 <= i < |modes| && mode == modes[i] && Shows(name, mode) &&
                             forall j :: 0 <= j < i ==> !Shows(name, modes[j])
  {
    if modes != [] && !Shows(name, modes[0]) {
      var rest, mode := modes[1..], FirstShown(modes, name);
      FirstShownExactly(rest, name);
      if mode == "" {
        forall i | 0 <= i < |modes| ensures !Shows(name, modes[i]) {
          assert i > 0 ==> rest[i - 1] == modes[i];
        }
      } else {
        var i :| 0 <= i < |rest| && mode == rest[i] && Shows(name, mode) &&
                 forall j :: 0 <= j < i ==> !Shows(name, rest[j]);
        forall j | 0 <= j < i + 1 ensures !Shows(name, modes[j]) {
          assert j > 0 ==> rest[j - 1] == modes[j];
        }
        assert mode == modes[i + 1];
      }
    }
  }

  /** A directory has no mode exactly when its profile records none and its name shows none; a name that shows
      several has the first of them in the order of the labels. */
  lemma ModeExactly(profile: string, name: string)
    ensures RecordedMode(profile) in JOB_MODES ==> ModeOf(profile, name) == RecordedMode(profile)
    ensures ModeOf(profile, name) == "" <==>
            RecordedMode(profile) !in JOB_MODES && forall i :: 0 <= i < |JOB_MODES| ==> !Shows(name, JOB_MODES[i])
    ensures RecordedMode(profile) !in JOB_MODES && ModeOf(profile, name) != "" ==>
              exists i :: 0 <= i < |JOB_MODES| && ModeOf(profile, name) == JOB_MODES[i] && Shows(name, JOB_MODES[i]) &&
                          forall j :: 0 <= j < i ==> !Shows(name, JOB_MODES[j])
  {
    FirstShownExactly(JOB_MODES, name);
  }

  lemma SuffixRemoved(s: string, suffix: string)
    ensures WithoutSuffix(s + suffix, suffix) == s
  {
  }

  /** No mode ends like a profile's suffix, with or without another suffix behind it. */
  lemma ModesAreBare(mode: string)
    requires mode in JOB_MODES
    ensures !EndsWith(mode, CLIENT) && !EndsWith(mode, SERVER_SIDE) && !EndsWith(mode + SERVER_SIDE, CLIENT)
  {
    var i :| 0 <= i < |JOB_MODES| && JOB_MODES[i] == mode;
    OtherLetter(mode, CLIENT, if mode == "extension_boot" then 2 else 1);
    OtherLetter(mode, SERVER_SIDE, 1);
    OtherLetter(mode + SERVER_SIDE, CLIENT, 1);
  }

  /** The k-th letter from the end differs. */
  lemma OtherLetter(s: string, suffix: string, k: nat)
    requires 0 < k <= |s| && k <= |suffix| && s[|s| - k] != suffix[|suffix| - k]
    ensures !EndsWith(s, suffix)
  {
    assert |suffix| <= |s| ==> s[|s| - |suffix|..][|suffix| - k] == s[|s| - k];
  }

  /** Both sides of a job record profiles that lead back to its mode, whatever the directory is called. */
  lemma ProfilesReadBack(mode: string, name: string)
    requires mode in JOB_MODES
    ensures ModeOf(mode, name) == ModeOf(mode + CLIENT, name) == ModeOf(mode + SERVER_SIDE, name) == mode
  {
    ModesAreBare(mode);
    SuffixRemoved(mode, CLIENT);
    SuffixRemoved(mode, SERVER_SIDE);
  }

  /** Without a profile, an artifact named after its mode is found, unless its name also shows a mode that comes
      earlier among the labels. */
  lemma NamesReadBack(before: string, i: nat, after: string)
    requires i < |JOB_MODES|
    ensures var name := before + ("-" + JOB_MODES[i] + "-") + after;
            ModeOf("", name) == JOB_MODES[i] <==> forall j :: 0 <= j < i ==> !Shows(name, JOB_MODES[j])
  {
    var part := "-" + JOB_MODES[i] + "-";
    var name := before + part + after;
    ContainsAt(before, part, after);
    assert Shows(name, JOB_MODES[i]);
    ModeExactly("", name);
    DistinctModes();
  }

  lemma DistinctModes()
    ensures forall i, j :: 0 <= i < j < |JOB_MODES| ==> JOB_MODES[i] != JOB_MODES[j]
    ensures RecordedMode("") !in JOB_MODES
  {
    assert |JOB_MODES[0]| == 8 && |JOB_MODES[1]| == 10 && |JOB_MODES[2]| == 14 && |JOB_MODES[3]| == 20;
    assert |JOB_MODES[4]| == 14 && |JOB_MODES[5]| == 15;
    assert JOB_MODES[2][0] != JOB_MODES[4][0];
  }

  // ----- the modes and profiles by their letters -----

  lemma EndsExactly(s: string, suffix: string)
    ensures EndsWith(s, suffix) <==> exists before :: s == before + suffix
  {
    if EndsWith(s, suffix) {
      assert s == s[..|s| - |suffix|] + suffix;
    }
  }

  /** A name shows a mode when it is the mode or holds it behind a dash, at the end or before another dash. */
  ghost predicate IsNamedAfter(name: string, mode: string) {
    || name == mode
    || (exists before :: name == before + ("-" + mode))
    || (exists before, after :: name == before + ("-" + mode + "-") + after)
  }

  lemma ShowsExactly(name: string, mode: string)
    ensures Shows(name, mode) <==> IsNamedAfter(name, mode)
  {
    EndsExactly(name, "-" + mode);
    ContainsExactly(name, "-" + mode + "-");
  }

  /** The six modes, each asked for once the ones before it are not shown. */
  lemma NamesDecideInOrder(name: string)
    ensures ModeOf("", name) ==
            if IsNamedAfter(name, "metadata") then "metadata"
            else if IsNamedAfter(name, "unit_tests") then "unit_tests"
            else if IsNamedAfter(name, "extension_boot") then "extension_boot"
            else if IsNamedAfter(name, "protocol_negotiation") then "protocol_negotiation"
            else if IsNamedAfter(name, "delivery_local") then "delivery_local"
            else if IsNamedAfter(name, "delivery_remote") then "delivery_remote"
            else ""
  {
    DistinctModes();
    forall i | 0 <= i < |JOB_MODES| ensures Shows(name, JOB_MODES[i]) <==> IsNamedAfter(name, JOB_MODES[i]) {
      ShowsExactly(name, JOB_MODES[i]);
    }
    FirstOfSix(JOB_MODES, name);
  }

  lemma FirstOfSix(m: seq<string>, name: string)
    requires |m| == 6
    ensures FirstShown(m, name) ==
            if Shows(name, m[0]) then m[0] else if Shows(name, m[1]) then m[1]
            else if Shows(name, m[2]) then m[2] else if Shows(name, m[3]) then m[3]
            else if Shows(name, m[4]) then m[4] else if Shows(name, m[5]) then m[5] else ""
  {
    assert FirstShown([], name) == "";
    assert m[5..] == [m[5]] + [] && m[4..] == [m[4]] + m[5..] && m[3..] == [m[3]] + m[4..];
    assert m[2..] == [m[2]] + m[3..] && m[1..] == [m[1]] + m[2..] && m == [m[0]] + m[1..];
    FirstShownStep(m[5], [], name);
    FirstShownStep(m[4], m[5..], name);
    FirstShownStep(m[3], m[4..], name);
    FirstShownStep(m[2], m[3..], name);
    FirstShownStep(m[1], m[2..], name);
    FirstShownStep(m[0], m[1..], name);
  }

  lemma FirstShownStep(mode: string, modes: seq<string>, name: string)
    ensures FirstShown([mode] + modes, name) == if Shows(name, mode) then mode else FirstShown(modes, name)
  {
    assert ([mode] + modes)[1..] == modes;
  }

  /** A profile stands for a mode exactly when it is the mode with nothing, "_client", "_server" or
      "_server_client" behind it. */
  lemma ProfileExactly(profile: string, mode: string)
    requires mode in JOB_MODES
    ensures RecordedMode(profile) == mode <==>
            || profile == mode || profile == mode + "_client" || profile == mode + "_server"
            || profile == mode + "_server" + "_client"
  {
    ModesAreBare(mode);
    SuffixRemoved(mode, CLIENT);
    SuffixRemoved(mode, SERVER_SIDE);
    SuffixRemoved(mode + SERVER_SIDE, CLIENT);
    RemovedSuffix(profile, CLIENT);
    RemovedSuffix(WithoutSuffix(profile, CLIENT), SERVER_SIDE);
  }

  lemma RemovedSuffix(s: string, suffix: string)
    ensures s == WithoutSuffix(s, suffix) || s == WithoutSuffix(s, suffix) + suffix
  {
  }
}
