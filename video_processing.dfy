/**
 * The `VideoProcessing` command builder: per-target option lists, the
 * output consumer, the profile and frame settings, compilation of the melt
 * command lines, and the render/poll bookkeeping over an explicit host (the
 * log files and the session slot).
 */
module Melt {
  import opened PhpText
  import opened OptionTree
  import opened Generators
  import opened Commands
  import opened Progress
  import Profiles

  /** What the builder touches outside itself: the files in the temporary
      directory (path to content), whether a session is started, and the
      session's `pid`/`uniqueStr` slot. */
  class Host {
    var files: map<string, string>
    var sessionStarted: bool
    var session: Option<Session>

    constructor(files: map<string, string>, sessionStarted: bool)
      ensures this.files == files && this.sessionStarted == sessionStarted && session == None
    {
      this.files := files;
      this.sessionStarted := sessionStarted;
      session := None;
    }

    /** What `render` leaves in the session slot: a launch records its pid
        and run id when a session is started, a failed launch clears it. */
    method RecordLaunch(pid: nat, runId: string)
      modifies this
      ensures session == if pid != 0 then (if sessionStarted then Some(Session(pid, runId)) else old(session)) else None
      ensures files == old(files) && sessionStarted == old(sessionStarted)
    {
      if pid != 0 {
        if sessionStarted {
          session := Some(Session(pid, runId));
        }
      } else if session.Some? {
        session := None;
      }
    }
  }

  /** The target `addOption` and the generators use by default. */
  const MainTarget: string := "main"

  class VideoProcessing {
    const meltPath: string
    const tmpDirPath: string
    const wipesDirPath: string
    var profileName: string
    var width: int
    var height: int
    var fps: int
    /** The output format; "" stands for PHP's null. */
    var format: string
    /** The keys of `optionsArray` in insertion order. */
    var targets: seq<string>
    var optionsArray: map<string, seq<seq<Entry>>>
    var consumer: map<string, Consumer>
    var commandsArray: map<string, string>

    /** The targets list the keys of the options map, each once. */
    ghost predicate Valid()
      reads this
    {
      (forall t :: t in optionsArray <==> t in targets)
      && (forall i, j :: 0 <= i < j < |targets| ==> targets[i] != targets[j])
    }

    /** The options a target has so far. */
    function OptionsOf(key: string): seq<seq<Entry>>
      reads this
    {
      if key in optionsArray then optionsArray[key] else []
    }

    /** The builder with the default profile `hdv_720_25p` (1280x720 at 25
        frames per second), no format and nothing added yet. */
    constructor(meltPath: string, tmpDirPath: string, wipesDirPath: string)
      ensures Valid()
      ensures this.meltPath == meltPath && this.tmpDirPath == tmpDirPath && this.wipesDirPath == wipesDirPath
      ensures profileName == "hdv_720_25p" && width == 1280 && height == 720 && fps == 25
      ensures Profiles.Lookup(profileName).Some?
      ensures var p := Profiles.Lookup(profileName).value; width == p.width && height == p.height && fps == p.frameRateNum
      ensures format == "" && targets == [] && optionsArray == map[] && consumer == map[] && commandsArray == map[]
    {
      this.meltPath := meltPath;
      this.tmpDirPath := tmpDirPath;
      this.wipesDirPath := wipesDirPath;
      profileName := "hdv_720_25p";
      width := 1280;
      height := 720;
      fps := 25;
      format := "";
      targets := [];
      optionsArray := map[];
      consumer := map[];
      commandsArray := map[];
    }

    method SetOutputSize(width: int, height: int)
      modifies this
      ensures this.width == width && this.height == height
      ensures profileName == old(profileName) && fps == old(fps) && format == old(format)
      ensures targets == old(targets) && optionsArray == old(optionsArray)
      ensures consumer == old(consumer) && commandsArray == old(commandsArray)
    {
      this.width := width;
      this.height := height;
    }

    method SetFps(fps: int)
      modifies this
      ensures this.fps == fps
      ensures profileName == old(profileName) && width == old(width) && height == old(height) && format == old(format)
      ensures targets == old(targets) && optionsArray == old(optionsArray)
      ensures consumer == old(consumer) && commandsArray == old(commandsArray)
    {
      this.fps := fps;
    }

    method SetOutputFormat(format: string)
      modifies this
      ensures this.format == format
      ensures profileName == old(profileName) && width == old(width) && height == old(height) && fps == old(fps)
      ensures targets == old(targets) && optionsArray == old(optionsArray)
      ensures consumer == old(consumer) && commandsArray == old(commandsArray)
    {
      this.format := format;
    }

    /** `setProfile`: the name is always recorded; a profile of the table
        also sets the frame size and the frame rate (`frame_rate_num`), an
        unknown name leaves them as they were. */
    method SetProfile(name: string)
      modifies this
      ensures profileName == name
      ensures Profiles.Lookup(name).Some? ==>
        var p := Profiles.Lookup(name).value;
        width == p.width && height == p.height && fps == p.frameRateNum
      ensures Profiles.Lookup(name).None? ==> width == old(width) && height == old(height) && fps == old(fps)
      ensures format == old(format) && targets == old(targets) && optionsArray == old(optionsArray)
      ensures consumer == old(consumer) && commandsArray == old(commandsArray)
    {
      profileName := name;
      match Profiles.Lookup(name)
      case Some(p) =>
        SetOutputSize(p.width, p.height);
        SetFps(p.frameRateNum);
      case None =>
    }

    /** `addOption($option, $key)`: the option goes to the end of its
        target's list, a new target to the end of the targets; no other
        target changes. */
    method AddOption(option: seq<Entry>, key: string)
      requires Valid()
      modifies this
      ensures Valid()
      ensures OptionsOf(key) == old(OptionsOf(key)) + [option]
      ensures forall t :: t != key ==> OptionsOf(t) == old(OptionsOf(t))
      ensures targets == if key in old(optionsArray) then old(targets) else old(targets) + [key]
      ensures optionsArray.Keys == old(optionsArray.Keys) + {key}
      ensures profileName == old(profileName) && width == old(width) && height == old(height)
      ensures fps == old(fps) && format == old(format)
      ensures consumer == old(consumer) && commandsArray == old(commandsArray)
    {
      if key !in optionsArray {
        optionsArray := optionsArray[key := []];
        targets := targets + [key];
      }
      optionsArray := optionsArray[key := optionsArray[key] + [option]];
    }

    /** `setOutputVideoOptions`: without a format yet, the format is
        inferred from the path's extension (mp4 when unknown); the target's
        consumer writes to the path with the format's defaults merged with
        the caller's options. */
    method SetOutputVideoOptions(outputPath: string, options: seq<Entry>, key: string)
      modifies this
      ensures format == if Falsy(old(format)) then InferFormat(outputPath) else old(format)
      ensures consumer == old(consumer)[key := Consumer(outputPath, ConsumerOptions(format, options))]
      ensures profileName == old(profileName) && width == old(width) && height == old(height) && fps == old(fps)
      ensures targets == old(targets) && optionsArray == old(optionsArray) && commandsArray == old(commandsArray)
    {
      if Falsy(format) {
        var f := InferFormat(outputPath);
        SetOutputFormat(f);
      }
      consumer := consumer[key := Consumer(outputPath, ConsumerOptions(format, options))];
    }

    /** `createCommands`: one command per target that has options, in the
        grammar `CommandText` states. */
    method CreateCommands()
      requires Valid()
      modifies this
      ensures Valid()
      ensures profileName == old(profileName) && width == old(width) && height == old(height)
      ensures fps == old(fps) && format == old(format)
      ensures targets == old(targets) && optionsArray == old(optionsArray) && consumer == old(consumer)
      ensures commandsArray == CommandsOf(meltPath, targets, optionsArray, profileName, consumer)
    {
      var commands: map<string, string> := map[];
      var i := 0;
      while i < |targets|
        invariant 0 <= i <= |targets|
        invariant unchanged(this)
        invariant commands == CommandsOf(meltPath, targets[..i], optionsArray, profileName, consumer)
      {
        var k := targets[i];
        assert k in optionsArray;
        var cmd := TargetCommand(k);
        CommandsOfStep(meltPath, targets, i, optionsArray, profileName, consumer);
        commands := commands[k := cmd];
        i := i + 1;
      }
      assert targets[..i] == targets;
      commandsArray := commands;
    }

    /** The command of one target: the melt path, each option's entries,
        the profile clause and the consumer clause, trimmed. */
    method TargetCommand(k: string) returns (cmd: string)
      requires k in optionsArray
      ensures cmd == CommandText(meltPath, optionsArray[k], profileName, ConsumerOf(consumer, k))
    {
      var opts := optionsArray[k];
      cmd := meltPath;
      var j := 0;
      while j < |opts|
        invariant 0 <= j <= |opts|
        invariant cmd == meltPath + Concat(Pieces(opts, OptionText), j)
      {
        var piece := OptionString(opts[j]);
        assert Pieces(opts, OptionText)[j] == piece;
        cmd := cmd + piece;
        j := j + 1;
      }
      var clause := "";
      if !Falsy(profileName) && k in consumer {
        clause := Continuation + "-profile " + profileName + " -progress";
      }
      var tail := ConsumerString(k);
      cmd := Trim(cmd + clause + tail);
    }

    /** What one option adds: for each entry, its `-key` flag unless the key
        is structural, then its serialised value. */
    static method OptionString(opt: seq<Entry>) returns (s: string)
      ensures s == OptionText(opt)
    {
      s := "";
      var m := 0;
      while m < |opt|
        invariant 0 <= m <= |opt|
        invariant s == Concat(Pieces(opt, EntryFlagText), m)
      {
        var key, val := opt[m].0, opt[m].1;
        var flag := "";
        if !Structural(key) {
          flag := Continuation + "-" + KeyText(key);
        }
        var value := OptionsString(val, true, false);
        assert flag + value == FlagText(key, val);
        EntryStep(opt, m);
        s := s + (flag + value);
        m := m + 1;
      }
    }

    /** The loop step of `OptionString`. */
    static lemma EntryStep(opt: seq<Entry>, m: nat)
      requires m < |opt|
      ensures Concat(Pieces(opt, EntryFlagText), m + 1) == Concat(Pieces(opt, EntryFlagText), m) + FlagText(opt[m].0, opt[m].1)
    {
      assert Pieces(opt, EntryFlagText)[m] == EntryFlagText(opt[m]);
    }

    /** `getConsumerString($key)` */
    method ConsumerString(key: string) returns (s: string)
      ensures s == ConsumerText(ConsumerOf(consumer, key))
    {
      if key !in consumer {
        return "";
      }
      var c := consumer[key];
      var options := OptionsString(c.options, true, false);
      s := ConsumerHead(c.outputPath) + options;
    }

    /** `clearOptions`: options, consumers and format go; the profile,
        the frame settings and the last commands stay. */
    method ClearOptions()
      modifies this
      ensures Valid()
      ensures targets == [] && optionsArray == map[] && consumer == map[] && format == ""
      ensures profileName == old(profileName) && width == old(width) && height == old(height) && fps == old(fps)
      ensures commandsArray == old(commandsArray)
    {
      optionsArray := map[];
      targets := [];
      consumer := map[];
      format := "";
    }

    /** `getCommandOutput($key)`: compile, then drain.  The result is the
        command of `key` as the options stood (none for a target without
        options); afterwards no target has options, so compiling again
        yields no command at all. */
    method GetCommandOutput(key: string) returns (r: Option<string>)
      requires Valid()
      modifies this
      ensures Valid()
      ensures r == if key in old(optionsArray)
        then Some(CommandFor(meltPath, old(optionsArray), profileName, old(consumer), key))
        else None
      ensures commandsArray == CommandsOf(meltPath, old(targets), old(optionsArray), profileName, old(consumer))
      ensures targets == [] && optionsArray == map[] && consumer == map[] && format == ""
      ensures profileName == old(profileName) && width == old(width) && height == old(height) && fps == old(fps)
    {
      CreateCommands();
      ClearOptions();
      r := if key in commandsArray then Some(commandsArray[key]) else None;
    }

    // -------------------------------------------------------------------
    // Option generators

    /** `addReadyMadeTransition`: `mix` first, then the mixer of a known
        transition. */
    method AddReadyMadeTransition(name: string, duration: int, options: seq<Entry>, key: string)
      requires Valid()
      modifies this
      ensures Valid()
      ensures OptionsOf(key) == old(OptionsOf(key)) + TransitionOptions(name, duration, options, width, height, wipesDirPath)
      ensures forall t :: t != key ==> OptionsOf(t) == old(OptionsOf(t))
      ensures optionsArray.Keys == old(optionsArray.Keys) + {key}
      ensures targets == if key in old(optionsArray) then old(targets) else old(targets) + [key]
      ensures profileName == old(profileName) && width == old(width) && height == old(height)
      ensures fps == old(fps) && format == old(format)
      ensures consumer == old(consumer) && commandsArray == old(commandsArray)
    {
      var opts := TransitionOptions(name, duration, options, width, height, wipesDirPath);
      AddOption(opts[0], key);
      if |opts| == 2 {
        AddOption(opts[1], key);
      }
      assert opts == if |opts| == 2 then [opts[0], opts[1]] else [opts[0]];
    }

    /** `addTextOverlay` */
    method AddTextOverlay(textContent: string, attachToAll: bool, options: seq<Entry>)
      requires Valid()
      modifies this
      ensures Valid()
      ensures OptionsOf(MainTarget) == old(OptionsOf(MainTarget)) + [TextOverlayOption(textContent, attachToAll, options)]
      ensures forall t :: t != MainTarget ==> OptionsOf(t) == old(OptionsOf(t))
      ensures optionsArray.Keys == old(optionsArray.Keys) + {MainTarget}
      ensures targets == if MainTarget in old(optionsArray) then old(targets) else old(targets) + [MainTarget]
      ensures profileName == old(profileName) && width == old(width) && height == old(height)
      ensures fps == old(fps) && format == old(format)
      ensures consumer == old(consumer) && commandsArray == old(commandsArray)
    {
      AddOption(TextOverlayOption(textContent, attachToAll, options), MainTarget);
    }

    /** `addWatermark`, placed by the current frame size unless the caller
        says otherwise. */
    method AddWatermark(filePath: string, attachToAll: bool, options: seq<Entry>)
      requires Valid()
      modifies this
      ensures Valid()
      ensures OptionsOf(MainTarget) == old(OptionsOf(MainTarget)) + [WatermarkOption(filePath, attachToAll, options, width, height)]
      ensures forall t :: t != MainTarget ==> OptionsOf(t) == old(OptionsOf(t))
      ensures optionsArray.Keys == old(optionsArray.Keys) + {MainTarget}
      ensures targets == if MainTarget in old(optionsArray) then old(targets) else old(targets) + [MainTarget]
      ensures profileName == old(profileName) && width == old(width) && height == old(height)
      ensures fps == old(fps) && format == old(format)
      ensures consumer == old(consumer) && commandsArray == old(commandsArray)
    {
      AddOption(WatermarkOption(filePath, attachToAll, options, width, height), MainTarget);
    }

    /** `addBackgroundAudio` */
    method AddBackgroundAudio(filePath: string, options: seq<Entry>)
      requires Valid()
      modifies this
      ensures Valid()
      ensures OptionsOf(MainTarget) == old(OptionsOf(MainTarget)) + [BackgroundAudioOption(filePath, options)]
      ensures forall t :: t != MainTarget ==> OptionsOf(t) == old(OptionsOf(t))
      ensures optionsArray.Keys == old(optionsArray.Keys) + {MainTarget}
      ensures targets == if MainTarget in old(optionsArray) then old(targets) else old(targets) + [MainTarget]
      ensures profileName == old(profileName) && width == old(width) && height == old(height)
      ensures fps == old(fps) && format == old(format)
      ensures consumer == old(consumer) && commandsArray == old(commandsArray)
    {
      AddOption(BackgroundAudioOption(filePath, options), MainTarget);
    }

    /** `disableAudio` */
    method DisableAudio()
      requires Valid()
      modifies this
      ensures Valid()
      ensures OptionsOf(MainTarget) == old(OptionsOf(MainTarget)) + [DisableAudioOption]
      ensures forall t :: t != MainTarget ==> OptionsOf(t) == old(OptionsOf(t))
      ensures optionsArray.Keys == old(optionsArray.Keys) + {MainTarget}
      ensures targets == if MainTarget in old(optionsArray) then old(targets) else old(targets) + [MainTarget]
      ensures profileName == old(profileName) && width == old(width) && height == old(height)
      ensures fps == old(fps) && format == old(format)
      ensures consumer == old(consumer) && commandsArray == old(commandsArray)
    {
      AddOption(DisableAudioOption, MainTarget);
    }

    /** `disableVideo` */
    method DisableVideo()
      requires Valid()
      modifies this
      ensures Valid()
      ensures OptionsOf(MainTarget) == old(OptionsOf(MainTarget)) + [DisableVideoOption]
      ensures forall t :: t != MainTarget ==> OptionsOf(t) == old(OptionsOf(t))
      ensures optionsArray.Keys == old(optionsArray.Keys) + {MainTarget}
      ensures targets == if MainTarget in old(optionsArray) then old(targets) else old(targets) + [MainTarget]
      ensures profileName == old(profileName) && width == old(width) && height == old(height)
      ensures fps == old(fps) && format == old(format)
      ensures consumer == old(consumer) && commandsArray == old(commandsArray)
    {
      AddOption(DisableVideoOption, MainTarget);
    }

    // -------------------------------------------------------------------
    // Rendering and progress

    /** The command with its error output sent to the log. */
    static function Redirected(command: string, logPath: string): (line: string)
      ensures |line| > |command| && line[..|command|] == command
    {
      command + Continuation + "2> \"" + logPath + "\""
    }

    /** `render`: compiles and drains the `main` target, redirects its
        error output to the run's log, and hands the command to the
        launcher, whose answer is `launchedPid` (0 when it gives none).
        A launch records the pid and run id in a started session; a failed
        launch clears the session slot. */
    method Render(host: Host, runId: string, launchedPid: nat)
      returns (launched: string, pid: Option<nat>, logPath: Option<string>)
      requires Valid()
      modifies this, host
      ensures Valid()
      ensures launched == Redirected(CommandFor(meltPath, old(optionsArray), profileName, old(consumer), MainTarget),
                                     LogPathOf(tmpDirPath, runId))
      ensures launchedPid != 0 ==> pid == Some(launchedPid) && logPath == Some(LogPathOf(tmpDirPath, runId))
      ensures launchedPid == 0 ==> pid == None && logPath == None
      ensures host.session == (
        if launchedPid != 0 then (if old(host.sessionStarted) then Some(Session(launchedPid, runId)) else old(host.session))
        else None)
      ensures host.files == old(host.files) && host.sessionStarted == old(host.sessionStarted)
      ensures targets == [] && optionsArray == map[] && consumer == map[] && format == ""
      ensures profileName == old(profileName) && width == old(width) && height == old(height) && fps == old(fps)
    {
      var path := LogPathOf(tmpDirPath, runId);
      var command := GetCommandOutput(MainTarget);
      launched := Redirected(if command.Some? then command.value else "", path);
      host.RecordLaunch(launchedPid, runId);
      if launchedPid != 0 {
        pid, logPath := Some(launchedPid), Some(path);
      } else {
        pid, logPath := None, None;
      }
    }

    /** `getRenderingPercent($logPath, $pid)` with the running pids as
        `running`: the result is `Poll`'s; a result of 100 deletes the log
        read and clears the session slot, anything else changes nothing. */
    method GetRenderingPercent(host: Host, logPath: string, pid: nat, running: set<nat>) returns (r: Option<nat>)
      modifies host
      ensures r == Poll(old(host.files), old(host.session), tmpDirPath, logPath, pid, running)
      ensures r == Some(100) ==>
        host.files == old(host.files) - {ResolvedPath(old(host.session), tmpDirPath, logPath).value}
        && host.session == None
      ensures r != Some(100) ==> host.files == old(host.files) && host.session == old(host.session)
      ensures host.sessionStarted == old(host.sessionStarted)
    {
      var path := logPath;
      if Falsy(path) {
        var uniqueStr := if host.session.Some? then host.session.value.runId else "";
        if Falsy(uniqueStr) {
          return None;
        }
        path := LogPathOf(tmpDirPath, uniqueStr);
      }
      if path !in host.files {
        return None;
      }
      var percent := LastPercentage(host.files[path]);
      if percent >= 99 {
        percent := 100;
      }
      var p := pid;
      if p == 0 && host.session.Some? {
        p := host.session.value.pid;
      }
      if p != 0 && p !in running {
        percent := 100;
      }
      if percent == 100 {
        host.files := host.files - {path};
        if host.session.Some? {
          host.session := None;
        }
      }
      return Some(percent);
    }
  }
}
