/**
 * The command grammar `createCommands` and `getConsumerString` write for one
 * target, the output format `setOutputVideoOptions` infers, and the consumer
 * options it merges.
 */
module Commands {
  import opened PhpText
  import opened OptionTree
  import opened Generators

  /** What `$this->consumer[$key]` holds: the `avformat` consumer with its
      output path and its merged options. */
  datatype Consumer = Consumer(outputPath: string, options: Node)

  const ConsumerName: string := "avformat"

  /** `in_array($key, $this->innerKeys)` with PHP 7's loose comparison: the
      structural names, and the integer key 0, which equals any non-numeric
      string. */
  predicate Structural(k: Key) {
    match k
    case Pos(i) => i == 0
    case Named(n) => n in InnerKeys
  }

  /** A key as `"-{$key}"` interpolates it. */
  function KeyText(k: Key): string {
    match k
    case Pos(i) => NatToString(i)
    case Named(n) => n
  }

  /** The `-key` flag a top-level entry of an option starts with, if any. */
  function Flag(k: Key): string {
    if Structural(k) then "" else Continuation + "-" + KeyText(k)
  }

  /** What one top-level entry of an option adds to the command: its flag,
      then its value serialised after a line continuation. */
  function FlagText(k: Key, v: Node): string {
    Flag(k) + OptionsStringOf(v, true, false)
  }

  /** The first `n` pieces of text, one after another. */
  function Concat(pieces: seq<string>, n: nat): string
    requires n <= |pieces|
  {
    if n == 0 then "" else Concat(pieces, n - 1) + pieces[n - 1]
  }

  /** The text of each element, in order. */
  function Pieces<T>(xs: seq<T>, render: T -> string): (ps: seq<string>)
    ensures |ps| == |xs|
  {
    seq(|xs|, i requires 0 <= i < |xs| => render(xs[i]))
  }

  /** The texts of the elements, one after another. */
  function Rendered<T>(xs: seq<T>, render: T -> string): string {
    Concat(Pieces(xs, render), |xs|)
  }

  /** What one top-level entry adds, as a function of the entry. */
  function EntryFlagText(e: Entry): string {
    FlagText(e.0, e.1)
  }

  /** What one option adds to the command: its entries, in order. */
  function OptionText(opt: seq<Entry>): string {
    Rendered(opt, EntryFlagText)
  }

  /** What the options of a target add to the command, in the order they
      were added. */
  function OptionsText(opts: seq<seq<Entry>>): string {
    Rendered(opts, OptionText)
  }

  /** The profile clause: only with a (PHP-truthy) profile name and a
      consumer for the target. */
  function ProfileClause(profileName: string, hasConsumer: bool): (r: string)
    ensures r != [] <==> !Falsy(profileName) && hasConsumer
    ensures r != [] ==> |r| > |Continuation| && r[..|Continuation|] == Continuation
  {
    if !Falsy(profileName) && hasConsumer then Continuation + "-profile " + profileName + " -progress" else ""
  }

  /** `getConsumerString($key)` */
  function ConsumerText(c: Option<Consumer>): string {
    match c
    case None => ""
    case Some(c) => ConsumerHead(c.outputPath) + OptionsStringOf(c.options, true, false)
  }

  /** The consumer clause up to its options: `-consumer avformat:"<path>"`. */
  function ConsumerHead(outputPath: string): (h: string)
    ensures h != [] && h[|h| - 1] == '"'
  {
    Continuation + "-consumer " + ConsumerName + ":\"" + outputPath + "\""
  }

  /** `$this->commandsArray[$k]` for a target with the options `opts`. */
  function CommandText(meltPath: string, opts: seq<seq<Entry>>, profileName: string, consumer: Option<Consumer>): string {
    Trim(meltPath + OptionsText(opts) + ProfileClause(profileName, consumer.Some?) + ConsumerText(consumer))
  }

  /** The consumer of a target, if it has one. */
  function ConsumerOf(consumers: map<string, Consumer>, target: string): Option<Consumer> {
    if target in consumers then Some(consumers[target]) else None
  }

  /** The command of a target, for one that has options. */
  function CommandFor(meltPath: string, options: map<string, seq<seq<Entry>>>, profileName: string,
                      consumers: map<string, Consumer>, target: string): string
  {
    if target in options then CommandText(meltPath, options[target], profileName, ConsumerOf(consumers, target)) else ""
  }

  /** The map from each key to its value. */
  function Tabulate<V>(keys: seq<string>, value: string -> V): (r: map<string, V>)
    ensures forall t :: t in r <==> t in keys
    ensures forall t :: t in r ==> r[t] == value(t)
  {
    map t | t in keys :: value(t)
  }

  /** One more key, one more entry. */
  lemma TabulateStep<V>(keys: seq<string>, i: nat, value: string -> V)
    requires i < |keys|
    ensures Tabulate(keys[..i + 1], value) == Tabulate(keys[..i], value)[keys[i] := value(keys[i])]
  {
    assert keys[..i + 1] == keys[..i] + [keys[i]];
  }

  /** `$this->commandsArray` after `createCommands`: one command for every
      target that has options, and for no other. */
  function CommandsOf(meltPath: string, targets: seq<string>, options: map<string, seq<seq<Entry>>>,
                      profileName: string, consumers: map<string, Consumer>): (r: map<string, string>)
    ensures forall t :: t in r <==> t in targets
  {
    Tabulate(targets, t => CommandFor(meltPath, options, profileName, consumers, t))
  }

  /** The loop step of `createCommands`. */
  lemma CommandsOfStep(meltPath: string, targets: seq<string>, i: nat, options: map<string, seq<seq<Entry>>>,
                       profileName: string, consumers: map<string, Consumer>)
    requires i < |targets|
    ensures CommandsOf(meltPath, targets[..i + 1], options, profileName, consumers)
         == CommandsOf(meltPath, targets[..i], options, profileName, consumers)[targets[i] :=
              CommandFor(meltPath, options, profileName, consumers, targets[i])]
  {
    TabulateStep(targets, i, t => CommandFor(meltPath, options, profileName, consumers, t));
  }

  /** Each command is the one `CommandText` states for its target's
      options. */
  lemma CommandsOfValue(meltPath: string, targets: seq<string>, options: map<string, seq<seq<Entry>>>,
                        profileName: string, consumers: map<string, Consumer>, t: string)
    requires t in targets && t in options
    ensures var r := CommandsOf(meltPath, targets, options, profileName, consumers);
      t in r && r[t] == CommandText(meltPath, options[t], profileName, ConsumerOf(consumers, t))
  {
  }

  // ---------------------------------------------------------------------
  // Properties of the grammar

  lemma {:induction false} ConcatOfAppend(a: seq<string>, b: seq<string>, n: nat)
    requires n <= |a|
    ensures Concat(a + b, n) == Concat(a, n)
  {
    if n > 0 {
      assert (a + b)[n - 1] == a[n - 1];
      ConcatOfAppend(a, b, n - 1);
    }
  }

  /** Concatenating two runs of pieces is concatenating their texts. */
  lemma {:induction false} ConcatAppend(a: seq<string>, b: seq<string>, k: nat)
    requires k <= |b|
    ensures Concat(a + b, |a| + k) == Concat(a, |a|) + Concat(b, k)
  {
    if k == 0 {
      ConcatOfAppend(a, b, |a|);
    } else {
      assert (a + b)[|a| + k - 1] == b[k - 1];
      ConcatAppend(a, b, k - 1);
      assert Concat(a, |a|) + Concat(b, k - 1) + b[k - 1] == Concat(a, |a|) + (Concat(b, k - 1) + b[k - 1]);
    }
  }

  /** Rendering two runs of elements is rendering each, one after the
      other. */
  lemma RenderedAppend<T>(a: seq<T>, b: seq<T>, render: T -> string)
    ensures Rendered(a + b, render) == Rendered(a, render) + Rendered(b, render)
  {
    assert Pieces(a + b, render) == Pieces(a, render) + Pieces(b, render);
    ConcatAppend(Pieces(a, render), Pieces(b, render), |b|);
  }

  lemma RenderedSingle<T>(x: T, render: T -> string)
    ensures Rendered([x], render) == render(x)
  {
    assert Concat(Pieces([x], render), 1) == "" + render(x);
  }

  /** The entries of an option are written one after another. */
  lemma OptionTextAppend(a: seq<Entry>, b: seq<Entry>)
    ensures OptionText(a + b) == OptionText(a) + OptionText(b)
  {
    RenderedAppend(a, b, EntryFlagText);
  }

  /** Options are written in the order they were added: the options of a
      target written one after another. */
  lemma OptionsTextAppend(a: seq<seq<Entry>>, b: seq<seq<Entry>>)
    ensures OptionsText(a + b) == OptionsText(a) + OptionsText(b)
  {
    RenderedAppend(a, b, OptionText);
  }

  /** Structural keys and the top-level key 0 never become a `-key` flag;
      every other top-level key does, numbered keys included. */
  lemma FlagRules(k: Key)
    ensures Structural(k) ==> Flag(k) == ""
    ensures k.Named? && k.name !in InnerKeys ==> Flag(k) == Continuation + "-" + k.name
    ensures k.Pos? && k.index > 0 ==> Flag(k) == Continuation + "-" + NatToString(k.index)
  {
  }

  /** A top-level entry with a scalar value is written as the flag followed
      by a space and the raw value, e.g. `-mix 25`. */
  lemma ScalarFlag(name: string, v: Scalar)
    requires name !in InnerKeys
    ensures FlagText(Named(name), Leaf(v)) == Continuation + "-" + name + " " + Raw(v)
  {
    ScalarArgument(v, true, false);
  }

  /** The loop body for a single numeric `name=value` setting. */
  lemma SettingBody(name: string, n: int)
    requires name !in InnerKeys
    ensures Body([(Named(name), Leaf(Num(n)))]) == name + "=" + IntToString(n) + " "
  {
    assert Prefix(List([(Named(name), Leaf(Num(n)))]), 1) == "" + EntryText(Named(name), Leaf(Num(n)));
  }

  /** A body of one untrimmed word and a space is that word after a line
      continuation. */
  lemma WordAfterBreak(es: seq<Entry>, word: string)
    requires Body(es) == word + " " && !Falsy(word)
    requires word != [] && !IsTrimmed(word[0]) && !IsTrimmed(word[|word| - 1])
    ensures OptionsStringOf(List(es), true, false) == Continuation + word
  {
    TrimTrailingSpace(word);
    PrefixRules(es, true, false);
  }

  /** A single numeric `name=value` setting, serialised after a line
      continuation. */
  lemma SettingString(name: string, n: int)
    requires name !in InnerKeys && name != [] && !IsTrimmed(name[0])
    ensures OptionsStringOf(List([(Named(name), Leaf(Num(n)))]), true, false) == Continuation + name + "=" + IntToString(n)
  {
    var digits := IntToString(n);
    var setting := name + "=" + digits;
    SettingBody(name, n);
    assert setting[0] == name[0] && setting[|setting| - 1] == digits[|digits| - 1];
    assert setting[|name|] == '=';
    WordAfterBreak([(Named(name), Leaf(Num(n)))], setting);
  }

  /** A structural key over a single numeric `name=value` setting adds no
      flag: the setting alone, after a line continuation. */
  lemma StructuralSetting(key: string, name: string, n: int)
    requires key in InnerKeys && name !in InnerKeys && name != [] && !IsTrimmed(name[0])
    ensures OptionText([(Named(key), List([(Named(name), Leaf(Num(n)))]))]) == Continuation + name + "=" + IntToString(n)
  {
    var entry := (Named(key), List([(Named(name), Leaf(Num(n)))]));
    SettingString(name, n);
    assert Flag(entry.0) == "";
    RenderedSingle(entry, EntryFlagText);
  }

  /** `disableAudio` and `disableVideo` add ` audio_index=-1` and
      ` video_index=-1` on a line of their own, with no flag of their own. */
  lemma ClipOptionsText()
    ensures OptionText(DisableAudioOption) == Continuation + "audio_index=-1"
    ensures OptionText(DisableVideoOption) == Continuation + "video_index=-1"
  {
    assert IntToString(-1) == "-1";
    StructuralSetting("clipOption", "audio_index", -1);
    StructuralSetting("clipOption", "video_index", -1);
  }

  /** A flat array of scalars after a line continuation: its tokens in
      order, separated by single spaces. */
  lemma FlatArgument(es: seq<Entry>)
    requires FlatEntries(es) && es != [] && !Falsy(Join(TokensOf(es)))
    ensures OptionsStringOf(List(es), true, false) == Continuation + Join(TokensOf(es))
  {
    FlatBody(es);
    TrimTrailingSpace(Join(TokensOf(es)));
  }

  /** A consumer with an array of options ends in a character `trim` keeps. */
  lemma ConsumerTextEnd(c: Consumer)
    requires c.options.List?
    ensures var t := ConsumerText(Some(c)); t != [] && !IsTrimmed(t[|t| - 1])
  {
    var head := ConsumerHead(c.outputPath);
    var tail := OptionsStringOf(c.options, true, false);
    PrefixRules(c.options.entries, true, false);
    if tail == [] {
      assert head + tail == head;
    } else {
      var body := Trim(Body(c.options.entries));
      assert tail == body || tail == Continuation + body;
      assert tail[|tail| - 1] == body[|body| - 1];
      assert (head + tail)[|head + tail| - 1] == tail[|tail| - 1];
    }
  }

  /** Regrouping five strings; kept apart from the lemmas that use it so
      that their proofs need not unfold the strings. */
  lemma Regroup(a: string, b: string, c: string, d: string, e: string)
    ensures a + (b + c) + d + e == a + b + c + d + e
  {
  }

  /** Text that starts and ends with characters `trim` keeps is left
      alone, whatever lies between. */
  lemma TrimKeeps(a: string, b: string, c: string, d: string)
    requires a != [] && !IsTrimmed(a[0]) && d != [] && !IsTrimmed(d[|d| - 1])
    ensures var s := a + b + c + d;
      Trim(s) == s && s[..|a|] == a && s[|s| - |d|..] == d
  {
    var s := a + b + c + d;
    assert s[0] == a[0];
    assert s[|s| - 1] == d[|d| - 1];
    TrimSettled(s);
  }

  /** The layout of a command for a target with a consumer: the melt path,
      then every option in the order added, then the profile clause when a
      profile is named, then the consumer clause; `trim` removes nothing. */
  lemma CommandLayout(meltPath: string, opts: seq<seq<Entry>>, profileName: string, c: Consumer)
    requires meltPath != [] && !IsTrimmed(meltPath[0]) && c.options.List?
    ensures var cmd := CommandText(meltPath, opts, profileName, Some(c));
      && cmd == meltPath + OptionsText(opts) + ProfileClause(profileName, true) + ConsumerText(Some(c))
      && cmd[..|meltPath|] == meltPath
      && cmd[|cmd| - |ConsumerText(Some(c))|..] == ConsumerText(Some(c))
  {
    ConsumerTextEnd(c);
    TrimKeeps(meltPath, OptionsText(opts), ProfileClause(profileName, true), ConsumerText(Some(c)));
  }

  /** A target without a consumer gets neither a profile nor a consumer
      clause, whatever the profile name. */
  lemma NoConsumerNoClauses(meltPath: string, opts: seq<seq<Entry>>, profileName: string)
    ensures CommandText(meltPath, opts, profileName, None) == Trim(meltPath + OptionsText(opts))
  {
    assert meltPath + OptionsText(opts) + ProfileClause(profileName, false) + ConsumerText(None)
        == meltPath + OptionsText(opts);
  }

  /** An option added later is written after every earlier option of its
      target, right before the profile and consumer clauses. */
  lemma AddedOptionComesLast(meltPath: string, opts: seq<seq<Entry>>, opt: seq<Entry>, profileName: string, c: Consumer)
    requires meltPath != [] && !IsTrimmed(meltPath[0]) && c.options.List?
    ensures CommandText(meltPath, opts + [opt], profileName, Some(c))
         == meltPath + OptionsText(opts) + OptionText(opt) + ProfileClause(profileName, true) + ConsumerText(Some(c))
  {
    var x, y := OptionsText(opts), OptionText(opt);
    var p, t := ProfileClause(profileName, true), ConsumerText(Some(c));
    CommandLayout(meltPath, opts + [opt], profileName, c);
    assert OptionsText(opts + [opt]) == x + y by {
      OptionsTextAppend(opts, [opt]);
      RenderedSingle(opt, OptionText);
    }
    Regroup(meltPath, x, y, p, t);
  }

  // ---------------------------------------------------------------------
  // Output format and consumer options

  /** The text after the last occurrence of `c` in `s`. */
  function AfterLast(s: string, c: char): (r: string)
    requires c in s
    ensures c !in r && |r| < |s| && s[|s| - |r| - 1] == c && s[|s| - |r|..] == r
  {
    if s[|s| - 1] == c then [] else AfterLast(s[..|s| - 1], c) + [s[|s| - 1]]
  }

  /** `getExtension($filePath)`: the lower-cased text after the last dot;
      nothing for a path without a dot or a PHP-falsy path. */
  function Extension(path: string): (ext: string)
    ensures '.' !in ext && |ext| <= |path|
  {
    if Falsy(path) || '.' !in path then "" else Lower(AfterLast(path, '.'))
  }

  /** The extension of `base.ext` is `ext`, lower-cased, whatever `base`
      holds (dots included). */
  lemma {:induction false} ExtensionOf(base: string, ext: string)
    requires '.' !in ext
    ensures Extension(base + "." + ext) == Lower(ext)
  {
    var path := base + "." + ext;
    assert path[|base|] == '.';
    assert !Falsy(path) by {
      assert path[|base|] == '.';
    }
    AfterLastSuffix(base, ext);
  }

  lemma {:induction false} AfterLastSuffix(base: string, ext: string)
    requires '.' !in ext
    ensures '.' in base + "." + ext && AfterLast(base + "." + ext, '.') == ext
    decreases |ext|
  {
    var path := base + "." + ext;
    assert path[|base|] == '.';
    if ext == [] {
      assert path[|path| - 1] == '.';
    } else {
      var init := ext[..|ext| - 1];
      assert path[..|path| - 1] == base + "." + init;
      assert path[|path| - 1] == ext[|ext| - 1];
      assert ext[|ext| - 1] != '.' by {
        assert ext[|ext| - 1] in ext;
      }
      AfterLastSuffix(base, init);
      assert init + [ext[|ext| - 1]] == ext;
    }
  }

  /** A path without a dot has no extension. */
  lemma NoDotNoExtension(path: string)
    requires '.' !in path
    ensures Extension(path) == ""
  {
  }

  /** The formats with default consumer options, the first one the
      fallback. */
  const Formats: seq<string> := ["mp4", "webm"]

  /** The format `setOutputVideoOptions` infers from the output path. */
  function InferFormat(path: string): (f: string)
    ensures f in Formats
  {
    var ext := Extension(path);
    if ext in Formats then ext else "mp4"
  }

  /** The inferred format is the lower-cased extension when it names a
      known format, and `mp4` otherwise. */
  lemma FormatFromExtension(base: string, ext: string)
    requires '.' !in ext
    ensures Lower(ext) in Formats ==> InferFormat(base + "." + ext) == Lower(ext)
    ensures Lower(ext) !in Formats ==> InferFormat(base + "." + ext) == "mp4"
  {
    ExtensionOf(base, ext);
  }

  /** `$defaultOptions[$format]`, absent for a format without defaults. */
  function DefaultOptions(format: string): (d: Option<seq<Entry>>)
    ensures d.Some? <==> format in Formats
  {
    match format
    case "mp4" => Some(CodecDefaults("libx264", "aac"))
    case "webm" => Some(CodecDefaults("libvpx", "libvorbis"))
    case _ => None
  }

  /** The defaults of both formats: they differ only in the codecs. */
  function CodecDefaults(vcodec: string, acodec: string): seq<Entry> {
    [Text("vcodec", vcodec), Text("vb", "5000k"), Text("acodec", acodec), Text("ab", "128k"),
     Number("frequency", 44100), Number("deinterlace", 1)]
  }

  /** `array_merge($defaultOptions[$format], $options)`.  For a format
      without defaults PHP 7's `array_merge` gives null, which the
      serialiser writes as a lone space. */
  function ConsumerOptions(format: string, overrides: seq<Entry>): (r: Node)
    ensures r.List? <==> format in Formats
  {
    match DefaultOptions(format)
    case Some(d) => List(Merge(d, overrides))
    case None => Leaf(Str(""))
  }

  /** The consumer options of a known format: the caller's value of a key
      wins, every other key keeps the format's default. */
  lemma ConsumerOptionsGet(format: string, overrides: seq<Entry>, name: string)
    requires format in Formats
    ensures var d := DefaultOptions(format).value;
      Get(ConsumerOptions(format, overrides).entries, name)
        == if LastValue(overrides, name).Some? then LastValue(overrides, name) else LastValue(d, name)
  {
    MergeGet(DefaultOptions(format).value, overrides, name);
  }

  /** The codecs of a format, unless the caller overrides them: `libx264`
      and `aac` for mp4, `libvpx` and `libvorbis` for webm. */
  lemma FormatCodecs(format: string, overrides: seq<Entry>)
    requires format in Formats
    ensures var o := ConsumerOptions(format, overrides).entries;
      && (LastValue(overrides, "vcodec").None? ==>
            Get(o, "vcodec") == Some(Leaf(Str(if format == "webm" then "libvpx" else "libx264"))))
      && (LastValue(overrides, "acodec").None? ==>
            Get(o, "acodec") == Some(Leaf(Str(if format == "webm" then "libvorbis" else "aac"))))
  {
    var vcodec := if format == "webm" then "libvpx" else "libx264";
    var acodec := if format == "webm" then "libvorbis" else "aac";
    assert DefaultOptions(format).value == CodecDefaults(vcodec, acodec);
    CodecDefaultsValues(vcodec, acodec);
    ConsumerOptionsGet(format, overrides, "vcodec");
    ConsumerOptionsGet(format, overrides, "acodec");
  }

  lemma CodecDefaultsValues(vcodec: string, acodec: string)
    ensures LastValue(CodecDefaults(vcodec, acodec), "vcodec") == Some(Leaf(Str(vcodec)))
    ensures LastValue(CodecDefaults(vcodec, acodec), "acodec") == Some(Leaf(Str(acodec)))
  {
    var d := CodecDefaults(vcodec, acodec);
    LastValueUnique(d, 0, "vcodec");
    LastValueUnique(d, 2, "acodec");
  }
}
