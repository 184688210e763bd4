/** The device directory: host-API enumeration, the per-OS name filters,
    name-keyed device maps, the input/output views and the named lookup.
    pupil_audio/utils/pyaudio.py builds it from `DeviceInfo` records;
    pupil_audio/pyaudio.py (and its copy at the end of
    examples/pyaudio_in_pyav_out_api.py) builds the older variant that is
    seeded with a "No Audio" pseudo-device. */
module Devices {
  import opened Wrappers
  import opened Strings
  import opened PortAudio

  /** A PortAudio device-info dict. A key the dict lacks is `None`; the
      default sample rate is a float in PortAudio and is kept opaque here. */
  datatype DeviceInfo = DeviceInfo(
    name: string,
    index: int,
    maxInputChannels: Option<int>,
    maxOutputChannels: Option<int>,
    defaultSampleRate: Option<int>)

  /** `max_input_channels`: a missing key reads as 0. */
  function MaxInputChannels(d: DeviceInfo): int
  {
    d.maxInputChannels.GetOr(0)
  }

  /** `max_output_channels`: a missing key reads as 0. */
  function MaxOutputChannels(d: DeviceInfo): int
  {
    d.maxOutputChannels.GetOr(0)
  }

  /** `is_input`: a device reporting no input-channel count is not an
      input. */
  function IsInput(d: DeviceInfo): (b: bool)
    ensures b <==> d.maxInputChannels.Some? && d.maxInputChannels.value > 0
  {
    MaxInputChannels(d) > 0
  }

  /** `is_output`: a device reporting no output-channel count is not an
      output. */
  function IsOutput(d: DeviceInfo): (b: bool)
    ensures b <==> d.maxOutputChannels.Some? && d.maxOutputChannels.value > 0
  {
    MaxOutputChannels(d) > 0
  }

  const NoAudioName: string := "No Audio"

  /** `_PYAUDIO_NO_DEVICE_INFO`: only a name and the "no device" index. */
  const NoDeviceInfo: DeviceInfo := DeviceInfo(NoAudioName, PaNoDevice, None, None, None)

  datatype OS = Linux | Darwin | Windows | OtherOS

  // ---------------------------------------------------------------------
  // Filters

  /** The devices of `ds` that satisfy `p`, in their order. */
  function Keep(ds: seq<DeviceInfo>, p: DeviceInfo -> bool): (r: seq<DeviceInfo>)
    ensures |r| <= |ds|
    ensures forall d :: d in r <==> d in ds && p(d)
    decreases |ds|
  {
    if |ds| == 0 then []
    else if p(ds[0]) then [ds[0]] + Keep(ds[1..], p)
    else Keep(ds[1..], p)
  }

  /** Filtering keeps the relative order: it distributes over concatenation. */
  lemma {:induction false} KeepAppend(a: seq<DeviceInfo>, b: seq<DeviceInfo>, p: DeviceInfo -> bool)
    ensures Keep(a + b, p) == Keep(a, p) + Keep(b, p)
    decreases |a|
  {
    if |a| > 0 {
      assert (a + b)[0] == a[0];
      assert (a + b)[1..] == a[1..] + b;
      KeepAppend(a[1..], b, p);
    } else {
      assert a + b == b;
    }
  }

  /** The Linux rule: ALSA hardware devices ("hw:" in the name) and "default". */
  predicate LinuxKeeps(d: DeviceInfo)
  {
    Contains(d.name, "hw:") || d.name == "default"
  }

  /** The macOS rule: anything not provided by NoMachine. */
  predicate MacosKeeps(d: DeviceInfo)
  {
    !Contains(d.name, "NoMachine")
  }

  /** The macOS re-indexing: each device's index becomes its position in the
      enumeration, counting the devices the filter drops afterwards. */
  function Reindex(ds: seq<DeviceInfo>): (r: seq<DeviceInfo>)
    ensures |r| == |ds|
    ensures forall i :: 0 <= i < |ds| ==> r[i] == ds[i].(index := i)
  {
    seq(|ds|, i requires 0 <= i < |ds| => ds[i].(index := i))
  }

  /** `_filter_on_linux`, `_filter_on_macos`, `_filter_on_windows`, chosen by
      the operating system; any other system is unsupported. */
  function FilterOn(os: OS, ds: seq<DeviceInfo>): (r: Result<seq<DeviceInfo>>)
    ensures r.Err? <==> os == OtherOS
    ensures r.Err? ==> r.error == NotImplementedError
    ensures os == Linux ==> r == Ok(Keep(ds, LinuxKeeps))
    ensures os == Darwin ==> r == Ok(Keep(Reindex(ds), MacosKeeps))
    ensures os == Windows ==> r == Ok(ds)
  {
    match os
    case Linux => Ok(Keep(ds, LinuxKeeps))
    case Darwin => Ok(Keep(Reindex(ds), MacosKeeps))
    case Windows => Ok(ds)
    case OtherOS => Err(NotImplementedError)
  }

  /** What the macOS filter yields: exactly the devices without "NoMachine"
      in their name, each carrying its enumeration position as index. */
  lemma MacosFilter(ds: seq<DeviceInfo>, d: DeviceInfo)
    ensures d in FilterOn(Darwin, ds).value <==>
              exists i :: 0 <= i < |ds| && d == ds[i].(index := i) && MacosKeeps(ds[i])
  {
    var r := Reindex(ds);
    if d in FilterOn(Darwin, ds).value {
      var i :| 0 <= i < |r| && r[i] == d;
      assert d == ds[i].(index := i) && MacosKeeps(ds[i]);
    }
    if exists i :: 0 <= i < |ds| && d == ds[i].(index := i) && MacosKeeps(ds[i]) {
      var i :| 0 <= i < |ds| && d == ds[i].(index := i) && MacosKeeps(ds[i]);
      assert r[i] == d;
    }
  }

  // ---------------------------------------------------------------------
  // Host API enumeration

  /** The host APIs the code asks for by default on each system. */
  datatype ApiType = ALSA | CoreAudio | DirectSound

  /** `HostApiInfo.default`: ALSA on Linux, CoreAudio on macOS, DirectSound
      on Windows; other systems are unsupported. */
  function DefaultApiType(os: OS): (r: Result<ApiType>)
    ensures r.Err? <==> os == OtherOS
    ensures r.Err? ==> r.error == NotImplementedError
  {
    match os
    case Linux => Ok(ALSA)
    case Darwin => Ok(CoreAudio)
    case Windows => Ok(DirectSound)
    case OtherOS => Err(NotImplementedError)
  }

  /** A host-API info dict: its index and its optional device count. */
  datatype HostApiInfo = HostApiInfo(index: int, deviceCount: Option<int>)

  /** `device_count`: a missing key reads as 0. */
  function DeviceCount(h: HostApiInfo): int
  {
    h.deviceCount.GetOr(0)
  }

  /** Asks `query` for host-API device indices 0 .. n-1 in order; `None`
      stands for the IOError that makes `enumerate_devices` skip an index. */
  function QueryRange(apiIndex: int, n: int, query: (int, int) -> Option<DeviceInfo>): (r: seq<DeviceInfo>)
    ensures |r| <= if n < 0 then 0 else n
    ensures forall d :: d in r <==> exists i :: 0 <= i < n && query(apiIndex, i) == Some(d)
    decreases if n < 0 then 0 else n
  {
    if n <= 0 then []
    else
      var prefix := QueryRange(apiIndex, n - 1, query);
      match query(apiIndex, n - 1)
      case Some(d) => prefix + [d]
      case None => prefix
  }

  /** The host-API indices whose query answers, in ascending order. */
  function AnsweredIndices(apiIndex: int, n: int, query: (int, int) -> Option<DeviceInfo>): (idx: seq<int>)
    ensures forall k :: 0 <= k < |idx| ==> 0 <= idx[k] < n && query(apiIndex, idx[k]).Some?
    ensures forall k, l :: 0 <= k < l < |idx| ==> idx[k] < idx[l]
    ensures forall i :: 0 <= i < n && query(apiIndex, i).Some? ==> i in idx
    decreases if n < 0 then 0 else n
  {
    if n <= 0 then []
    else
      var prefix := AnsweredIndices(apiIndex, n - 1, query);
      if query(apiIndex, n - 1).Some? then prefix + [n - 1] else prefix
  }

  /** The enumeration keeps order and multiplicity: its k-th device is the
      answer for the k-th index that answered, so a skipped index drops
      exactly its own device and nothing is reordered or merged. */
  lemma {:induction false} QueryRangeAnswers(apiIndex: int, n: int, query: (int, int) -> Option<DeviceInfo>)
    ensures var r := QueryRange(apiIndex, n, query);
            var idx := AnsweredIndices(apiIndex, n, query);
            && |r| == |idx|
            && forall k :: 0 <= k < |r| ==> query(apiIndex, idx[k]) == Some(r[k])
    decreases if n < 0 then 0 else n
  {
    if n > 0 {
      QueryRangeAnswers(apiIndex, n - 1, query);
    }
  }

  /** `HostApiInfo.enumerate_devices` */
  function EnumerateHostDevices(h: HostApiInfo, query: (int, int) -> Option<DeviceInfo>): (r: seq<DeviceInfo>)
    ensures DeviceCount(h) <= 0 ==> r == []
    ensures forall d :: d in r <==> exists i :: 0 <= i < DeviceCount(h) && query(h.index, i) == Some(d)
  {
    QueryRange(h.index, DeviceCount(h), query)
  }

  /** `DeviceInfo.enumerate`: the default host API's devices through the
      system's filter. `lookup` answers `get_host_api_info_by_type`, with
      `None` for the IOError that leaves no default API, and then nothing
      is enumerated. */
  function Enumerate(os: OS, lookup: ApiType -> Option<HostApiInfo>, query: (int, int) -> Option<DeviceInfo>): (r: Result<seq<DeviceInfo>>)
    ensures r.Err? <==> os == OtherOS
    ensures os != OtherOS && lookup(DefaultApiType(os).value).None? ==> r == Ok([])
    ensures os != OtherOS && lookup(DefaultApiType(os).value).Some? ==>
              r == FilterOn(os, EnumerateHostDevices(lookup(DefaultApiType(os).value).value, query))
  {
    var api :- DefaultApiType(os);
    match lookup(api)
    case None => Ok([])
    case Some(h) => FilterOn(os, EnumerateHostDevices(h, query))
  }

  // ---------------------------------------------------------------------
  // Name-keyed maps

  /** `{d.name: d for d in ds}`: keyed by name; for a repeated name the
      later device overwrites the earlier one. */
  function ByName(ds: seq<DeviceInfo>): (m: map<string, DeviceInfo>)
    ensures forall n :: n in m ==> m[n] in ds && m[n].name == n
    ensures forall d :: d in ds ==> d.name in m
    decreases |ds|
  {
    if |ds| == 0 then map[]
    else
      var last := ds[|ds| - 1];
      var prefix := ByName(ds[..|ds| - 1]);
      InitMembers(ds);
      prefix[last.name := last]
  }

  /** The members of a non-empty list are those of all but its last
      element, and that element. */
  lemma InitMembers(ds: seq<DeviceInfo>)
    requires |ds| > 0
    ensures forall d :: d in ds <==> d in ds[..|ds| - 1] || d == ds[|ds| - 1]
  {
    assert ds == ds[..|ds| - 1] + [ds[|ds| - 1]];
  }

  /** Last writer wins: a device that no later device shares a name with is
      the map's entry for its name. */
  lemma {:induction false} ByNameLastWins(ds: seq<DeviceInfo>, i: nat)
    requires i < |ds|
    requires forall j :: i < j < |ds| ==> ds[j].name != ds[i].name
    ensures ds[i].name in ByName(ds) && ByName(ds)[ds[i].name] == ds[i]
    decreases |ds|
  {
    if i < |ds| - 1 {
      var prefix := ds[..|ds| - 1];
      assert prefix[i] == ds[i];
      ByNameLastWins(prefix, i);
    }
  }

  /** The keys of a name map are exactly the names of the devices. */
  lemma ByNameKeys(ds: seq<DeviceInfo>, n: string)
    ensures n in ByName(ds) <==> exists i :: 0 <= i < |ds| && ds[i].name == n
  {
    if n in ByName(ds) {
      var d := ByName(ds)[n];
      var i :| 0 <= i < |ds| && ds[i] == d;
    }
  }

  /** `inputs_by_name` (and `_pyaudio_inputs`): the sub-map of input devices. */
  function InputsByName(m: map<string, DeviceInfo>): (r: map<string, DeviceInfo>)
    ensures forall n :: n in r <==> n in m && IsInput(m[n])
    ensures forall n :: n in r ==> r[n] == m[n]
  {
    map n | n in m && IsInput(m[n]) :: m[n]
  }

  /** `outputs_by_name` (and `_pyaudio_outputs`): the sub-map of output devices. */
  function OutputsByName(m: map<string, DeviceInfo>): (r: map<string, DeviceInfo>)
    ensures forall n :: n in r <==> n in m && IsOutput(m[n])
    ensures forall n :: n in r ==> r[n] == m[n]
  {
    map n | n in m && IsOutput(m[n]) :: m[n]
  }

  /** The message of the lookup failure: the requested name, then every
      available name in sorted order, separated by ", ". */
  function NoDeviceMessage(name: string, available: set<string>): string
  {
    "No device named \"" + name + "\". Available devices: " + Join(SortedStrings(available), ", ") + "."
  }

  /** `_named_device_or_raise_exception` (and `_pyaudio_input_info`): the
      entry for a present name, otherwise a ValueError naming the sorted
      available names. */
  function NamedDevice(name: string, m: map<string, DeviceInfo>): (r: Result<DeviceInfo>)
    ensures r.Ok? <==> name in m
    ensures r.Ok? ==> r.value == m[name]
    ensures r.Err? ==> r.error == ValueError(NoDeviceMessage(name, m.Keys))
  {
    if name in m then Ok(m[name]) else Err(ValueError(NoDeviceMessage(name, m.Keys)))
  }

  /** Looking up a missing name fails with the message that quotes the name
      and lists the available names, in which each available name appears
      exactly once, in ascending order. */
  lemma NamedDeviceListsNames(name: string, m: map<string, DeviceInfo>, other: string)
    requires name !in m
    ensures var names := SortedStrings(m.Keys);
            && NamedDevice(name, m)
                 == Err(ValueError("No device named \"" + name + "\". Available devices: " + Join(names, ", ") + "."))
            && |names| == |m.Keys|
            && (other in m <==> other in names)
            && forall i, j :: 0 <= i < j < |names| ==> Less(names[i], names[j])
  {
  }

  /** `DeviceInfo.devices_by_name` */
  function DevicesByName(os: OS, lookup: ApiType -> Option<HostApiInfo>, query: (int, int) -> Option<DeviceInfo>): (r: Result<map<string, DeviceInfo>>)
    ensures r.Err? <==> os == OtherOS
    ensures r.Ok? ==> r.value == ByName(Enumerate(os, lookup, query).value)
  {
    var ds :- Enumerate(os, lookup, query);
    Ok(ByName(ds))
  }

  /** `DeviceInfo.named_input`: look the name up among the input devices. */
  function NamedInput(os: OS, lookup: ApiType -> Option<HostApiInfo>, query: (int, int) -> Option<DeviceInfo>, name: string): (r: Result<DeviceInfo>)
    ensures os == OtherOS ==> r == Err(NotImplementedError)
    ensures r.Ok? ==> IsInput(r.value) && r.value.name == name
    ensures r.Ok? ==> r.value in Enumerate(os, lookup, query).value
    ensures os != OtherOS ==> r == NamedDevice(name, InputsByName(ByName(Enumerate(os, lookup, query).value)))
  {
    var m :- DevicesByName(os, lookup, query);
    NamedDevice(name, InputsByName(m))
  }

  /** `DeviceInfo.named_output`: look the name up among the output devices. */
  function NamedOutput(os: OS, lookup: ApiType -> Option<HostApiInfo>, query: (int, int) -> Option<DeviceInfo>, name: string): (r: Result<DeviceInfo>)
    ensures os == OtherOS ==> r == Err(NotImplementedError)
    ensures r.Ok? ==> IsOutput(r.value) && r.value.name == name
    ensures r.Ok? ==> r.value in Enumerate(os, lookup, query).value
    ensures os != OtherOS ==> r == NamedDevice(name, OutputsByName(ByName(Enumerate(os, lookup, query).value)))
  {
    var m :- DevicesByName(os, lookup, query);
    NamedDevice(name, OutputsByName(m))
  }

  // ---------------------------------------------------------------------
  // The older directory of pupil_audio/pyaudio.py

  /** `_linux_pyaudio_devices`, `_macos_pyaudio_devices`,
      `_windows_pyaudio_devices` (dispatched by `_pyaudio_devices`): the
      "No Audio" entry first, then the filtered devices of the system's host
      API, `listing`, by name. */
  function LegacyDevices(os: OS, listing: seq<DeviceInfo>): (r: Result<map<string, DeviceInfo>>)
    ensures r.Err? <==> os == OtherOS
    ensures r.Ok? ==> NoAudioName in r.value
    ensures r.Ok? ==> r.value == ByName([NoDeviceInfo] + FilterOn(os, listing).value)
  {
    var filtered :- FilterOn(os, listing);
    Ok(ByName([NoDeviceInfo] + filtered))
  }

  /** Unless a real device is itself called "No Audio", the seeded entry
      survives and, having no channel counts, is neither an input nor an
      output. */
  lemma NoAudioNeitherInputNorOutput(os: OS, listing: seq<DeviceInfo>)
    requires os != OtherOS
    requires forall d :: d in listing ==> d.name != NoAudioName
    ensures LegacyDevices(os, listing).value[NoAudioName] == NoDeviceInfo
    ensures NoAudioName !in InputsByName(LegacyDevices(os, listing).value)
    ensures NoAudioName !in OutputsByName(LegacyDevices(os, listing).value)
  {
    var filtered := FilterOn(os, listing).value;
    var ds := [NoDeviceInfo] + filtered;
    forall j | 0 < j < |ds|
      ensures ds[j].name != NoAudioName
    {
      assert ds[j] in filtered;
    }
    ByNameLastWins(ds, 0);
  }

  /** `_pyaudio_input_info` */
  function LegacyInputInfo(os: OS, listing: seq<DeviceInfo>, name: string): (r: Result<DeviceInfo>)
    ensures os == OtherOS ==> r == Err(NotImplementedError)
    ensures os != OtherOS ==> r == NamedDevice(name, InputsByName(LegacyDevices(os, listing).value))
    ensures r.Ok? ==> IsInput(r.value) && r.value.name == name && r.value != NoDeviceInfo
  {
    var m :- LegacyDevices(os, listing);
    NamedDevice(name, InputsByName(m))
  }

  // ---------------------------------------------------------------------
  // enumerate_devices: a device map's values sorted by index

  predicate SortedByIndex(s: seq<DeviceInfo>)
  {
    forall i, j :: 0 <= i < j < |s| ==> s[i].index <= s[j].index
  }

  function InsertByIndex(d: DeviceInfo, s: seq<DeviceInfo>): (r: seq<DeviceInfo>)
    requires SortedByIndex(s)
    ensures SortedByIndex(r)
    ensures multiset(r) == multiset(s) + multiset{d}
    decreases |s|
  {
    if |s| == 0 then [d]
    else if d.index <= s[0].index then [d] + s
    else
      var rest := InsertByIndex(d, s[1..]);
      assert s == [s[0]] + s[1..];
      InsertLowerBound(s[0].index, d, s[1..], rest);
      [s[0]] + rest
  }

  /** A bound below `d` and every element of `s` is below every element of
      the sequence that holds exactly those. */
  lemma InsertLowerBound(lo: int, d: DeviceInfo, s: seq<DeviceInfo>, rest: seq<DeviceInfo>)
    requires lo <= d.index && forall k :: 0 <= k < |s| ==> lo <= s[k].index
    requires multiset(rest) == multiset(s) + multiset{d}
    ensures forall k :: 0 <= k < |rest| ==> lo <= rest[k].index
  {
    forall k | 0 <= k < |rest|
      ensures lo <= rest[k].index
    {
      assert rest[k] in multiset(rest);
      if rest[k] != d {
        assert rest[k] in multiset(s);
        var j :| 0 <= j < |s| && s[j] == rest[k];
      }
    }
  }

  /** `sorted(devices, key=lambda x: x["index"])`, as an insertion sort. */
  function SortByIndex(s: seq<DeviceInfo>): (r: seq<DeviceInfo>)
    ensures SortedByIndex(r)
    ensures multiset(r) == multiset(s)
    decreases |s|
  {
    if |s| == 0 then []
    else
      assert s == [s[0]] + s[1..];
      InsertByIndex(s[0], SortByIndex(s[1..]))
  }

  /** A device map's values, listed in the order of their names. */
  function Values(m: map<string, DeviceInfo>): (r: seq<DeviceInfo>)
    ensures |r| == |m|
    ensures forall d :: d in r <==> d in m.Values
  {
    var names := SortedStrings(m.Keys);
    var r := seq(|names|, i requires 0 <= i < |names| => m[names[i]]);
    assert forall d :: d in m.Values ==> d in r by {
      forall d | d in m.Values
        ensures d in r
      {
        var n :| n in m && m[n] == d;
        var i :| 0 <= i < |names| && names[i] == n;
        assert r[i] == d;
      }
    }
    r
  }

  /** `enumerate_devices` of the input (or output) streams: every entry of
      the device map exactly once, in non-decreasing index order. */
  function EnumerateDevices(m: map<string, DeviceInfo>): (r: seq<DeviceInfo>)
    ensures SortedByIndex(r)
    ensures |r| == |m|
    ensures forall d :: d in r <==> d in m.Values
  {
    var s := Values(m);
    var r := SortByIndex(s);
    assert forall d :: d in r <==> d in multiset(r);
    assert forall d :: d in s <==> d in multiset(s);
    assert |r| == |multiset(r)| == |multiset(s)| == |s|;
    r
  }
}
