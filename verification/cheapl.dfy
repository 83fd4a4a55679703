/** The sound service: which wave files belong to which device and
    command, what an x10.basic command does with them, and how the service
    answers. */
module Cheapl {
  import opened Optional
  import opened Text
  import opened XplMessage
  import opened DatagramParser
  import opened XplWire
  import opened XplService
  import opened WavTypes
  import opened Playback
  import opened WavParser

  // ---------------------------------------------------------------------
  // File names: `^(on|off)([^.]+)\.wav`, case-insensitive, whole name

  /** Equal up to ASCII case, as a regex::icase comparison sees it. */
  predicate SameIgnoringCase(a: string, b: string) {
    Lower(a) == Lower(b)
  }

  /** `s` starts with `p`, ignoring case. */
  predicate StartsIgnoringCase(s: string, p: string) {
    |p| <= |s| && SameIgnoringCase(s[..|p|], p)
  }

  const WavSuffix: string := ".wav"

  /** The file name pattern, as a description of the whole name: the
      command in any case, a non-empty device name without a dot, ".wav"
      in any case. */
  predicate Matches(name: string, command: string, device: string) {
    && (command == "on" || command == "off")
    && 0 < |device| && '.' !in device
    && |name| == |command| + |device| + 4
    && SameIgnoringCase(name[..|command|], command)
    && name[|command|..|command| + |device|] == device
    && SameIgnoringCase(name[|command| + |device|..], WavSuffix)
  }

  /** What one directory entry contributes: the lower-cased command and
      the device name as written, if the name matches. The alternative
      "on" is tried first; a name that starts with it cannot start with
      "off", so at most one alternative can succeed. */
  function ClassifyFile(name: string): (r: Option<(string, string)>)
    ensures r.Some? ==> r.value.0 == "on" || r.value.0 == "off"
  {
    var k := if StartsIgnoringCase(name, "on") then 2 else if StartsIgnoringCase(name, "off") then 3 else 0;
    if k == 0 || |name| < k + 5 then None
    else
      var device := name[k..|name| - 4];
      if '.' in device || !SameIgnoringCase(name[|name| - 4..], WavSuffix) then None
      else Some((if k == 2 then "on" else "off", device))
  }

  lemma LowerPrefix(s: string, n: nat)
    requires n <= |s|
    ensures Lower(s[..n]) == Lower(s)[..n]
  {
  }

  /** A name that starts with "off" in any case does not start with "on". */
  lemma OffIsNotOn(name: string)
    requires StartsIgnoringCase(name, "off")
    ensures !StartsIgnoringCase(name, "on")
  {
    assert Lower(name[..3])[1] == LowerChar(name[1]) == Lower("off")[1] == 'f';
    assert Lower(name[..2])[1] == LowerChar(name[1]);
    assert Lower("on")[1] == 'n';
  }

  /** ClassifyFile finds exactly the command and device the pattern
      describes. */
  lemma ClassifyFileMatches(name: string, command: string, device: string)
    ensures ClassifyFile(name) == Some((command, device)) <==> Matches(name, command, device)
  {
    if Matches(name, command, device) {
      var k := |command|;
      assert name[..k] == name[..|name|][..k];
      if command == "off" {
        OffIsNotOn(name);
      } else {
        assert StartsIgnoringCase(name, "on");
      }
      assert name[k..|name| - 4] == device;
    }
    if ClassifyFile(name) == Some((command, device)) {
      var k := if command == "on" then 2 else 3;
      if command == "on" {
        assert StartsIgnoringCase(name, "on");
        assert Lower(name[..2]) == Lower("on");
      } else {
        assert !StartsIgnoringCase(name, "on") && StartsIgnoringCase(name, "off");
        assert Lower(name[..3]) == Lower("off");
      }
    }
  }

  // ---------------------------------------------------------------------
  // The light map of scan_files

  /** device -> command -> the file to play. */
  type Lights = map<string, map<string, string>>

  /** Every device has at least one of the two commands, and no others. */
  predicate WellShaped(lights: Lights) {
    forall d :: d in lights ==> lights[d].Keys <= {"on", "off"} && 0 < |lights[d]|
  }

  /** One round of the directory loop: a matching name is stored under its
      device and command, replacing an earlier one. */
  function Record(lights: Lights, name: string): (r: Lights)
    requires WellShaped(lights)
    ensures WellShaped(r)
  {
    match ClassifyFile(name)
    case None => lights
    case Some((command, device)) =>
      var entries := if device in lights then lights[device] else map[];
      lights[device := entries[command := name]]
  }

  /** The directory loop over the entries in iteration order. */
  function Collect(names: seq<string>): (r: Lights)
    ensures WellShaped(r)
    decreases |names|
  {
    if |names| == 0 then map[] else Record(Collect(names[..|names| - 1]), names[|names| - 1])
  }

  /** Entry `i` of `names` is a file for `command` on `device`. */
  predicate Classified(names: seq<string>, i: int, command: string, device: string) {
    0 <= i < |names| && ClassifyFile(names[i]) == Some((command, device))
  }

  /** ... and no later entry is. */
  predicate LastClassified(names: seq<string>, i: int, command: string, device: string) {
    Classified(names, i, command, device)
    && forall j :: i < j < |names| ==> !Classified(names, j, command, device)
  }

  /** One round of the loop touches only the pair the name is for. */
  lemma RecordEffect(lights: Lights, name: string, command: string, device: string)
    requires WellShaped(lights)
    ensures var r := Record(lights, name);
      device in r && command in r[device]
      <==> ClassifyFile(name) == Some((command, device)) || (device in lights && command in lights[device])
    ensures var r := Record(lights, name);
      ClassifyFile(name) == Some((command, device)) ==> r[device][command] == name
    ensures var r := Record(lights, name);
      ClassifyFile(name) != Some((command, device)) && device in lights && command in lights[device]
      ==> r[device][command] == lights[device][command]
  {
  }

  /** The loop's state before its last round. */
  lemma CollectLast(names: seq<string>)
    requires 0 < |names|
    ensures Collect(names) == Record(Collect(names[..|names| - 1]), names[|names| - 1])
  {
  }

  /** An entry before the last is classified the same in the shorter list. */
  lemma ClassifiedInit(names: seq<string>, i: int, command: string, device: string)
    requires 0 <= i < |names| - 1
    ensures Classified(names, i, command, device) <==> Classified(names[..|names| - 1], i, command, device)
  {
  }

  /** The loop records a (device, command) pair only when some entry
      names it ... */
  lemma {:induction false} CollectOnlyClassified(names: seq<string>, command: string, device: string)
    requires device in Collect(names) && command in Collect(names)[device]
    ensures exists i :: Classified(names, i, command, device)
    decreases |names|
  {
    var n := |names| - 1;
    var init := names[..n];
    CollectLast(names);
    RecordEffect(Collect(init), names[n], command, device);
    if !Classified(names, n, command, device) {
      CollectOnlyClassified(init, command, device);
      var i :| Classified(init, i, command, device);
      ClassifiedInit(names, i, command, device);
    }
  }

  /** ... and always when one does. */
  lemma {:induction false} CollectClassified(names: seq<string>, i: int, command: string, device: string)
    requires Classified(names, i, command, device)
    ensures device in Collect(names) && command in Collect(names)[device]
    decreases |names|
  {
    var n := |names| - 1;
    var init := names[..n];
    CollectLast(names);
    RecordEffect(Collect(init), names[n], command, device);
    if i < n {
      ClassifiedInit(names, i, command, device);
      CollectClassified(init, i, command, device);
    }
  }

  lemma CollectFinds(names: seq<string>, command: string, device: string)
    ensures var r := Collect(names);
      device in r && command in r[device] <==> exists i :: Classified(names, i, command, device)
  {
    if exists i :: Classified(names, i, command, device) {
      var i :| Classified(names, i, command, device);
      CollectClassified(names, i, command, device);
    }
    if device in Collect(names) && command in Collect(names)[device] {
      CollectOnlyClassified(names, command, device);
    }
  }

  /** ... and the entry kept is the last such one. */
  lemma {:induction false} CollectLastWins(names: seq<string>, command: string, device: string)
    ensures var r := Collect(names);
      device in r && command in r[device] ==>
        exists i :: LastClassified(names, i, command, device) && r[device][command] == names[i]
    decreases |names|
  {
    if |names| > 0 {
      var n := |names| - 1;
      var init := names[..n];
      var r := Collect(names);
      CollectLastWins(init, command, device);
      CollectLast(names);
      RecordEffect(Collect(init), names[n], command, device);
      if device in r && command in r[device] {
        if Classified(names, n, command, device) {
          assert LastClassified(names, n, command, device);
        } else {
          var i :| LastClassified(init, i, command, device) && Collect(init)[device][command] == init[i];
          ClassifiedInit(names, i, command, device);
          forall j | i < j < |names| ensures !Classified(names, j, command, device) {
            if j < n {
              ClassifiedInit(names, j, command, device);
            }
          }
          assert LastClassified(names, i, command, device);
        }
      }
    }
  }

  lemma SubsetOfPair(s: set<string>)
    requires s <= {"on", "off"}
    ensures |s| == 2 <==> "on" in s && "off" in s
  {
    if "on" in s && "off" in s {
      assert s == {"on", "off"};
    } else if "on" in s {
      assert s == {"on"};
    } else if "off" in s {
      assert s == {"off"};
    } else {
      assert s == {};
    }
  }

  /** The pruning loop: keep the devices with exactly two entries. */
  function Prune(lights: Lights): (r: Lights)
    requires WellShaped(lights)
    ensures forall d :: d in r ==> d in lights && r[d] == lights[d] && r[d].Keys == {"on", "off"}
    ensures forall d :: d in lights && "on" in lights[d] && "off" in lights[d] ==> d in r
  {
    var r := map d | d in lights && |lights[d]| == 2 :: lights[d];
    assert forall d :: d in lights ==> (|lights[d]| == 2 <==> "on" in lights[d] && "off" in lights[d]) by {
      forall d | d in lights ensures |lights[d]| == 2 <==> "on" in lights[d] && "off" in lights[d] {
        SubsetOfPair(lights[d].Keys);
      }
    }
    r
  }

  /** scan_files over the names of the directory's entries. */
  function ScanFiles(names: seq<string>): (r: Lights)
    ensures forall d :: d in r ==> r[d].Keys == {"on", "off"}
  {
    Prune(Collect(names))
  }

  /** A device is kept exactly when the directory has a file for each of
      its commands, and each command plays the last such file. */
  lemma ScanFilesKeeps(names: seq<string>, device: string)
    ensures device in ScanFiles(names) <==>
      (exists i :: Classified(names, i, "on", device)) && (exists j :: Classified(names, j, "off", device))
    ensures device in ScanFiles(names) ==>
      forall c :: c in ScanFiles(names)[device] ==>
        exists i :: LastClassified(names, i, c, device) && ScanFiles(names)[device][c] == names[i]
  {
    CollectFinds(names, "on", device);
    CollectFinds(names, "off", device);
    CollectLastWins(names, "on", device);
    CollectLastWins(names, "off", device);
  }

  // ---------------------------------------------------------------------
  // handle_command

  /** The name under which the service registers handle_command. */
  const HandleCommandName: string := "handle_command"

  /** What handle_command decides: nothing, or play `file` and then send
      `replies` in order. */
  datatype Command = Ignored | Play(file: string, replies: seq<Message>)

  /** The copy of the command sent back: a trigger, addressed to all. */
  function Reply(m: Message): (r: Message)
    ensures r.messageType == TriggerType && r.messageSchema == m.messageSchema && r.body == m.body
    ensures r.headers.Keys == m.headers.Keys + {"target"} && r.headers["target"] == "*"
    ensures forall k :: k in m.headers && k != "target" ==> r.headers[k] == m.headers[k]
  {
    m.(messageType := TriggerType, headers := m.headers["target" := "*"])
  }

  /** The command a message asks for, when the lookups succeed. A missing
      key makes map::at throw std::out_of_range, which the handler does not
      catch and handle_message swallows: no sound and no reply. */
  predicate Playable(lights: Lights, m: Message) {
    && "command" in m.body && "device" in m.body
    && (m.body["command"] == "on" || m.body["command"] == "off")
    && m.body["device"] in lights && m.body["command"] in lights[m.body["device"]]
  }

  function HandleCommand(lights: Lights, m: Message): (r: Command)
    ensures r.Play? <==> Playable(lights, m)
    ensures r.Play? ==> r.file == lights[m.body["device"]][m.body["command"]]
    ensures r.Play? ==> (|r.replies| == 2
      && r.replies[0] == Reply(m)
      && r.replies[1] == Reply(m).(messageSchema := "x10.confirm"))
  {
    if "command" !in m.body || "device" !in m.body then Ignored
    else
      var command := m.body["command"];
      var device := m.body["device"];
      if !(command == "on" || command == "off") then Ignored
      else if device !in lights || command !in lights[device] then Ignored
      else
        var reply := Reply(m);
        Play(lights[device][command], [reply, reply.(messageSchema := "x10.confirm")])
  }

  /** The file a scanned service plays for a command is a file of that
      command for that device, and the last such in the directory. */
  lemma PlaysMatchingFile(names: seq<string>, m: Message)
    requires HandleCommand(ScanFiles(names), m).Play?
    ensures Matches(HandleCommand(ScanFiles(names), m).file, m.body["command"], m.body["device"])
    ensures exists i :: (LastClassified(names, i, m.body["command"], m.body["device"])
      && names[i] == HandleCommand(ScanFiles(names), m).file)
  {
    var command, device := m.body["command"], m.body["device"];
    ScanFilesKeeps(names, device);
    var i :| LastClassified(names, i, command, device) && ScanFiles(names)[device][command] == names[i];
    ClassifyFileMatches(names[i], command, device);
  }

  // ---------------------------------------------------------------------
  // The service

  datatype Cheapl = Cheapl(service: Service, lights: Lights)

  /** The constructor: an xPL service with handle_command registered for
      x10.basic commands, and the lights map of the directory. */
  function NewCheapl(appId: string, version: string, port: nat, ip: string, names: seq<string>): (c: Cheapl)
    ensures !c.service.connected && c.service.posted == [] && c.service.sent == []
    ensures c.service.handlers.Keys == {(CommandType, "hbeat.request"), (CommandType, "x10.basic")}
    ensures c.service.handlers[(CommandType, "x10.basic")] == Callback(HandleCommandName)
    ensures c.lights == ScanFiles(names)
  {
    var s := RegisterCommand(NewService(appId, version, port, ip), "x10.basic", Callback(HandleCommandName));
    Cheapl(s, ScanFiles(names))
  }

  /** After a datagram: the service carries on, or play_wav ended it (or
      never returned) with the given outcome. */
  datatype Step = Running(c: Cheapl) | Stopped(outcome: Outcome)

  /** play_wav on each file of the directory, `files` holding their bytes,
      with a device that grants `period` frames per period. A name missing
      from `files` opens as an empty stream: parse_wavfile accepts it, and
      play_wav then reads a format nothing wrote. */
  function Player(files: map<string, seq<Byte>>, period: nat): (r: string -> Outcome)
    ensures forall f :: f !in files ==> r(f) == Indeterminate
    ensures forall f :: r(f) == ParseFailed <==> f in files && ParseWavFile(files[f]).None?
  {
    f => PlayWav(if f in files then files[f] else [], period)
  }

  /** What the service does after handle_command decided `cmd`: play the
      file and, if play_wav returns, send the two replies. */
  function Answer(c: Cheapl, cmd: Command, play: string -> Outcome): (r: Step)
    ensures cmd.Ignored? ==> r == Running(c)
    ensures cmd.Play? && !play(cmd.file).Played? ==> r == Stopped(play(cmd.file))
    ensures cmd.Play? && play(cmd.file).Played? && |cmd.replies| == 2 ==>
      r == Running(c.(service := c.service.(posted := c.service.posted
        + [ToString(Stamp(c.service, cmd.replies[0])), ToString(Stamp(c.service, cmd.replies[1]))])))
  {
    match cmd
    case Ignored => Running(c)
    case Play(file, replies) =>
      var outcome := play(file);
      if !outcome.Played? then Stopped(outcome)
      else if |replies| != 2 then Running(c)
      else
        SendTwice(c.service, replies[0], replies[1]);
        Running(c.(service := Send(Send(c.service, replies[0]), replies[1])))
  }

  /** Two sends in a row queue both texts, each stamped with our id. */
  lemma SendTwice(s: Service, a: Message, b: Message)
    ensures Send(Send(s, a), b) == s.(posted := s.posted + [ToString(Stamp(s, a)), ToString(Stamp(s, b))])
  {
    assert Send(s, a).appId == s.appId;
    AppendTwo(s.posted, ToString(Stamp(s, a)), ToString(Stamp(s, b)));
  }

  lemma AppendTwo<T>(p: seq<T>, x: T, y: T)
    ensures (p + [x]) + [y] == p + [x, y]
  {
  }

  /** A datagram arrives; `play` gives the outcome of play_wav on each file. */
  function OnDatagram(c: Cheapl, datagram: string, play: string -> Outcome): (r: Step)
    ensures r.Running? ==> r.c.lights == c.lights
  {
    var h := Receive(c.service, datagram);
    var c1 := c.(service := h.service);
    if h.callback != Some(HandleCommandName) then Running(c1)
    else Answer(c1, HandleCommand(c.lights, GetMessage(FeedLines(Fresh(), Tokenize(datagram)))), play)
  }

  /** A command sent to us as text reaches handle_command as it was sent. */
  lemma CommandReceived(s: Service, m: Message)
    requires WireSafe(m) && m.messageType == CommandType && m.messageSchema == "x10.basic"
    requires Addressed(s, m)
    requires (CommandType, "x10.basic") in s.handlers
    requires s.handlers[(CommandType, "x10.basic")] == Callback(HandleCommandName)
    ensures Receive(s, ToString(m)) == Handled(s, Some(HandleCommandName))
    ensures GetMessage(FeedLines(Fresh(), Tokenize(ToString(m)))) == m
  {
    RoundTrip(m);
    ReceiveToString(s, m);
  }

  /** A datagram that reaches handle_command leaves the service as it was
      until handle_command has answered. */
  lemma DispatchedToCommand(c: Cheapl, datagram: string, m: Message, play: string -> Outcome)
    requires Receive(c.service, datagram) == Handled(c.service, Some(HandleCommandName))
    requires GetMessage(FeedLines(Fresh(), Tokenize(datagram))) == m
    ensures OnDatagram(c, datagram, play) == Answer(c, HandleCommand(c.lights, m), play)
  {
  }

  /** An x10.basic command sent to us whose device and command are in the
      map plays that file and, once it has played, sends the two replies;
      a command that is not playable sends nothing and changes nothing. */
  lemma CommandAnswered(c: Cheapl, m: Message, play: string -> Outcome)
    requires WireSafe(m) && m.messageType == CommandType && m.messageSchema == "x10.basic"
    requires Addressed(c.service, m)
    requires (CommandType, "x10.basic") in c.service.handlers
    requires c.service.handlers[(CommandType, "x10.basic")] == Callback(HandleCommandName)
    ensures !Playable(c.lights, m) ==> OnDatagram(c, ToString(m), play) == Running(c)
    ensures Playable(c.lights, m) ==>
      var outcome := play(c.lights[m.body["device"]][m.body["command"]]);
      OnDatagram(c, ToString(m), play) == (
        if outcome.Played? then
          Running(c.(service := c.service.(posted := c.service.posted
            + [ToString(Stamp(c.service, Reply(m))),
               ToString(Stamp(c.service, Reply(m).(messageSchema := "x10.confirm")))])))
        else Stopped(outcome))
  {
    CommandReceived(c.service, m);
    DispatchedToCommand(c, ToString(m), m, play);
  }

  lemma TriggerSafe()
    ensures TextSafe(TriggerType) && TriggerType != "{"
  {
    assert TriggerType[0] == 'x' && TriggerType[7] == 'g';
  }

  lemma ConfirmSafe()
    ensures TextSafe("x10.confirm") && "x10.confirm" != "{"
  {
    assert "x10.confirm"[0] == 'x' && "x10.confirm"[10] == 'm';
  }

  /** A reply, with any wire-safe schema, is wire-safe. */
  lemma ReplySafe(m: Message, schema: string)
    requires WireSafe(m) && TextSafe(schema) && schema != "{"
    ensures WireSafe(Reply(m).(messageSchema := schema))
  {
    HeartbeatLiteralsSafe();
    TriggerSafe();
    MapSafeUpdate(m.headers, "target", "*");
  }

  /** Both replies survive the wire: a peer parses each back to the
      command's body, as a trigger from us addressed to all. */
  lemma ReplyRoundTrip(s: Service, m: Message, schema: string)
    requires WireSafe(m) && TextSafe(s.appId) && TextSafe(schema) && schema != "{"
    ensures var sent := Stamp(s, Reply(m).(messageSchema := schema));
      && FeedLines(Fresh(), Tokenize(ToString(sent))) == Parser(Ready, sent)
      && sent.messageType == TriggerType && sent.messageSchema == schema && sent.body == m.body
      && sent.headers["target"] == "*" && sent.headers["source"] == s.appId
  {
    ReplySafe(m, schema);
    SendRoundTrip(s, Reply(m).(messageSchema := schema));
  }

  lemma RepliesRoundTrip(s: Service, m: Message)
    requires WireSafe(m) && TextSafe(s.appId)
    ensures var sent := Stamp(s, Reply(m));
      FeedLines(Fresh(), Tokenize(ToString(sent))) == Parser(Ready, sent)
    ensures var sent := Stamp(s, Reply(m).(messageSchema := "x10.confirm"));
      FeedLines(Fresh(), Tokenize(ToString(sent))) == Parser(Ready, sent)
  {
    ReplyRoundTrip(s, m, m.messageSchema);
    assert Reply(m).(messageSchema := m.messageSchema) == Reply(m);
    ConfirmSafe();
    ReplyRoundTrip(s, m, "x10.confirm");
  }
}
