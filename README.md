# VideoProcessing: a Dafny model of the melt command builder

`VideoProcessing` (in `classes/VideoProcessing.php`) builds command lines for
the `melt` video editor. A caller adds options to named targets. Each option
is a nested PHP array. The caller can also attach an output consumer, pick a
profile, and add ready-made transitions, text overlays, watermarks and audio
tracks. The builder then compiles one command per target, drains its state,
hands the `main` command to a background launcher, and later polls the
launched process's log for its progress percentage.

The model has seven modules:

- `PhpText` (`text.dfy`): the PHP string behaviour the class relies on.
  - `trim`, PHP-falsy strings, integer-to-string conversion and the `(int)`
    cast of a string, as PHP 7.0 reads it.
  - `strtolower` on ASCII letters.
- `OptionTree` (`option_tree.dfy`): the option arrays and the recursive
  serialiser `getOptionsString`.
  - An array is a closed datatype: a sequence of `(Key, Node)` entries. A key
    is `Pos(n)` or `Named(s)`. A value is `Leaf(Num n | Str s)` or another
    `List`. `is_numeric` on a value is decided by the `Num`/`Str` tag.
  - The serialiser appears twice: once as the function `OptionsStringOf`, and
    once as the recursive methods `OptionsString`, `BodyString` and
    `EntryString`. The methods accumulate `$output` in a loop, as the PHP
    does, and each method is proved equal to the function.
  - The module also models `array_merge` over named keys (`Merge`, `Get`,
    `Put`, `Remove`).
- `Generators` (`generators.dfy`): the option arrays that
  `addReadyMadeTransition`, `addTextOverlay`, `addWatermark`,
  `addBackgroundAudio`, `disableAudio` and `disableVideo` build. It includes
  the two-keyframe geometry strings (`0=x/y:WxH:op;d=x/y:WxH:op`) and a parser
  that proves them unambiguous.
- `Profiles` (`profiles.dfy`): the fixed profile table of `setProfile`.
- `Commands` (`commands.dfy`): the command grammar of `createCommands` and
  `getConsumerString`, `getExtension`, the inference of the output format, and
  the default consumer options.
- `Progress` (`progress.dfy`): reading a log for `getRenderingPercent`.
  - The last match of `percentage:\s+(\d+)`.
  - The 99 threshold and the process check.
  - The poll over an explicit map of files and an explicit session slot.
- `Melt` (`video_processing.dfy`): the class itself.
  - `VideoProcessing` keeps the fields the PHP object mutates. `optionsArray`
    is a map from target to its list of options, and a `seq` of target names
    keeps PHP's insertion order.
  - A `Host` object holds the files of the temporary directory and the
    session slot.
  - `createCommands` and the option loop of each command are imperative
    loops, as is `getOptionsString` in `OptionTree`. `getConsumerString` has
    no loop; it is a method that serialises the consumer options and
    appends them to the consumer head.
    Each is proved against the grammar functions of `Commands`.

Decisions about PHP behaviour:

- Line 160 uses the loose PHP 7 `in_array`. Under it, the top-level
  positional key `0` (lines 627, 687) compares equal to every inner key and
  emits no `-0` flag. The model follows PHP 7: `Pos(0)` is structural at the
  top level, and a top-level `Pos(n)` with `n > 0` emits `-n`.
- The value `'-1'` at lines 563 and 573 is numeric to `is_numeric`. It is
  modelled as `Num(-1)` and written bare.
- Named keys are never numeric strings.
- `empty("0")` is true. A serialised body that is exactly `0` therefore gets
  no prefix, and the model does the same.
- A null format is the empty string. Every read of the format treats the two
  alike.
- A format set explicitly to a value without defaults gives
  `array_merge(null, …)`, which is null in PHP 7 and serialises as one space.
  The model serialises it as one space too.
- The session slot is `Option<Session(pid, runId)>`. An unset key reads as
  `0`/`""`, as the PHP's `isset` fallbacks do.
- The launcher's answer is a `nat` parameter of `Render`, where 0 means
  failure. The run id (`uniqid`) is a parameter too.
- `DIRECTORY_SEPARATOR` is `/` and `PHP_EOL` is `\n`.
- The profile `atsc_720p_24` has `frame_rate_num` 25 in the table (line 314).
  The model keeps that value, and `Profiles.Atsc720p24RunsAt25` states it.

## Model

| member | source | states |
|---|---|---|
| PhpText.Trim | classes/VideoProcessing.php:170 | the trimmed string neither starts nor ends with a character `trim` removes |
| PhpText.TrimLeft | classes/VideoProcessing.php:261 | the result is a suffix of the input, and every removed character is one `trim` strips |
| PhpText.TrimRight | classes/VideoProcessing.php:261 | the result is a prefix of the input, and every removed character is one `trim` strips |
| PhpText.TrimSettled | classes/VideoProcessing.php:170 | `trim` leaves a string alone when its ends are not blank |
| PhpText.TrimRightAppend | classes/VideoProcessing.php:261 | trailing blanks after a non-blank end are exactly what `rtrim` removes |
| PhpText.TrimTrailingSpace | classes/VideoProcessing.php:261 | the one space the loop appends after the last token is removed again by `trim` |
| PhpText.Falsy | classes/VideoProcessing.php:262-269 | PHP's `empty()` and `!` on a string: only `""` and `"0"`; `PrefixRules` states the serialiser's use of it |
| PhpText.NatToString | classes/VideoProcessing.php:258 | the decimal text of a natural is digits only, with no leading zero |
| PhpText.IntToString | classes/VideoProcessing.php:258 | an integer's text is non-blank at both ends and starts with `-` exactly when it is negative |
| PhpText.DigitsValueOfNatToString | classes/VideoProcessing.php:747 | reading back the digits of a natural gives the natural (round trip) |
| PhpText.LeadingInt | classes/VideoProcessing.php:663-665 | the `(int)` cast of a string as PHP 7.0 reads it: leading blanks, a sign, the longest digit run (its round trip is `LeadingIntOfIntToString`) |
| PhpText.LeadingIntOfIntToString | classes/VideoProcessing.php:663-665 | the `(int)` cast of an integer's text is that integer (round trip) |
| PhpText.Lower | classes/VideoProcessing.php:895 | `strtolower` keeps the length and lower-cases each ASCII letter, position by position |
| PhpText.DigitRun | classes/VideoProcessing.php:663-665 | the length of the leading run of digits: all digits before it, none at it |
| OptionTree.OptionsStringOf | classes/VideoProcessing.php:242-270 | the serialiser as a function; its properties are `PrefixRules`, `ScalarArgument`, `NamedArrayIsFlagged`, `InnerKeyScalarHasNoName` and `FlatArrayOutput` |
| OptionTree.EntryText | classes/VideoProcessing.php:249-259 | what one entry adds to `$output`: ` -key ` and the nested body for a named array, else `key=` and the scalar; `InnerKeyScalarHasNoName`, `NamedArrayIsFlagged`, `TokenShape` and `EntryString` state its properties |
| OptionTree.OptionsString | classes/VideoProcessing.php:242-270 | the loop-and-recursion serialiser returns exactly `OptionsStringOf` |
| OptionTree.BodyString | classes/VideoProcessing.php:247-260 | the loop's `$output` is the concatenation of the entries' texts, in order |
| OptionTree.EntryString | classes/VideoProcessing.php:249-259 | one entry's text: ` -key ` and the nested body for a named array; `key=` and the bare or quoted scalar otherwise |
| OptionTree.PrefixStep | classes/VideoProcessing.php:248-260 | one loop turn appends exactly one entry's text |
| OptionTree.BodySnoc | classes/VideoProcessing.php:248-260 | an entry added last is written last |
| OptionTree.BodyAppend | classes/VideoProcessing.php:248-260 | the body of two runs of entries is the body of the first followed by that of the second (insertion order) |
| OptionTree.PrefixOfPrefix | classes/VideoProcessing.php:248-260 | the output so far depends only on the entries visited so far |
| OptionTree.ScalarArgument | classes/VideoProcessing.php:244-246 | a non-array argument yields one space and its raw value, whatever the flags |
| OptionTree.PrefixRules | classes/VideoProcessing.php:261-269 | an empty (or `"0"`) body gets no prefix; `prefixSpace` wins over `prefixNewLine`; no flag gives the bare body |
| OptionTree.InnerKeyScalarHasNoName | classes/VideoProcessing.php:255-256 | a structural key is never written as `key=` before a scalar |
| OptionTree.NamedArrayIsFlagged | classes/VideoProcessing.php:250-253 | a named nested array is always announced by ` -key `, structural keys included |
| OptionTree.ScalarTextShape | classes/VideoProcessing.php:258 | a scalar's text ends in exactly one space, right after a character `trim` keeps |
| OptionTree.TokenShape | classes/VideoProcessing.php:255-258 | a scalar entry is its `key=value` token plus one space, and the token has non-blank ends |
| OptionTree.JoinSnoc | classes/VideoProcessing.php:248-261 | joining one more token adds one separating space |
| OptionTree.JoinSettled | classes/VideoProcessing.php:261 | tokens with non-blank ends join to a string with non-blank ends |
| OptionTree.FlatInit | classes/VideoProcessing.php:248-260 | a prefix of a flat array of scalars is flat |
| OptionTree.FlatBody | classes/VideoProcessing.php:248-260 | the body of a flat array of scalars is its tokens joined by single spaces, plus one trailing space |
| OptionTree.FlatArrayOutput | classes/VideoProcessing.php:242-270 | a flat array of scalars serialises to its tokens in order, separated by single spaces |
| OptionTree.Get | classes/VideoProcessing.php:418 | a named key is present exactly when some entry carries it |
| OptionTree.Put | classes/VideoProcessing.php:419 | assignment sets the key, keeps every other key, and keeps the existing keys' order |
| OptionTree.Remove | classes/VideoProcessing.php:598 | `unset` removes the key and keeps every other key |
| OptionTree.LastValue | classes/VideoProcessing.php:412-417 | the last value given for a name is present exactly when the name occurs |
| OptionTree.LastValueUnique | classes/VideoProcessing.php:201-218 | the value of a name that occurs once is that entry's value |
| OptionTree.LastValueCons | classes/VideoProcessing.php:412-417 | a later occurrence overrides an earlier one |
| OptionTree.LastValueSplit | classes/VideoProcessing.php:412-417 | in two runs of entries, the second run's value for a name wins |
| OptionTree.MergeIntoGet | classes/VideoProcessing.php:412-417 | merging entries into an array gives each name its last new value, or else its old one |
| OptionTree.MergeInto | classes/VideoProcessing.php:412-417 | `array_merge` one entry at a time: a named key overwrites in place or is appended, a positional entry is appended and renumbered; `MergeIntoGet`, `MergeIntoKeepsKeys` and `MergeIntoFresh` state its properties |
| OptionTree.Merge | classes/VideoProcessing.php:412-417 | `array_merge(defaults, overrides)`; what a key reads after it is `MergeGet` |
| OptionTree.MergeGet | classes/VideoProcessing.php:229 | `array_merge(defaults, overrides)`: the overrides' value wins, and the default stays where there is none |
| OptionTree.GetAppend | classes/VideoProcessing.php:412-417 | appending a positional entry changes no named value |
| OptionTree.GetAppendOther | classes/VideoProcessing.php:412-417 | appending an entry with another name changes no value of this name |
| OptionTree.MergeIntoKeepsKeys | classes/VideoProcessing.php:412-417 | merging keeps the keys already present, in their places |
| OptionTree.PutNew | classes/VideoProcessing.php:419 | assigning a new key appends it at the end |
| OptionTree.MergeIntoFresh | classes/VideoProcessing.php:412-417 | merging distinct new names appends them in order |
| OptionTree.FreshTail | classes/VideoProcessing.php:412-417 | the merge's distinctness precondition survives one step |
| OptionTree.MergeNothing | classes/VideoProcessing.php:620 | merging no overrides into distinct defaults gives the defaults unchanged |
| Generators.Interp | classes/VideoProcessing.php:441 | a value interpolated into a string: a scalar as its text, an array as `Array` |
| Generators.IntCast | classes/VideoProcessing.php:663-665 | `(int)` on an option value: a number as itself, a string by `LeadingInt`, an array as 0 or 1 |
| Generators.IsEmptyValue | classes/VideoProcessing.php:540-542 | PHP's `empty()` on an option value: 0, a falsy string, or an empty array; `WipeResource` and `Slide` state the choices it decides |
| Generators.GetOr | classes/VideoProcessing.php:441 | reading a present key gives its value |
| Generators.SplitAtJoin | classes/VideoProcessing.php:441-442 | splitting at a separator that the first part lacks recovers both parts |
| Generators.KeyframeRoundTrip | classes/VideoProcessing.php:441-442 | a keyframe `f=x/y:WxH:op` parses back into its six fields (round trip) |
| Generators.AnimationRoundTrip | classes/VideoProcessing.php:441-442 | a two-keyframe geometry string parses back into both keyframes (round trip) |
| Generators.PlainSeparable | classes/VideoProcessing.php:441-442 | a keyframe whose fields hold only digits, `-` and `%` has no separator inside a field |
| Generators.PlainNegated | classes/VideoProcessing.php:464-476 | a minus sign before such a field keeps it free of separators |
| Generators.IntToStringPlain | classes/VideoProcessing.php:663-681 | the text of an integer holds only digits and `-` |
| Generators.ShiftReadsBack | classes/VideoProcessing.php:439-528 | a shift animation built from numeric sizes, opacities and duration parses back into its two keyframes |
| Generators.SlideReadsBack | classes/VideoProcessing.php:662-683 | every slide animation of the text overlay parses back into its two keyframes |
| Generators.TransitionKind | classes/VideoProcessing.php:433-553 | a name is unsupported exactly when it is not one of the eleven `case` labels |
| Generators.ShiftKeyframes | classes/VideoProcessing.php:439-528 | the two keyframes of a shift, at frame 0 and at the duration; the clip rests at `0/0` at the end of an `In` shift and at the start of an `Out` shift |
| Generators.ShiftOutReversesIn | classes/VideoProcessing.php:439-530 | with equal in and out sizes, each `*Out` animation is its `*In` animation played backwards |
| Generators.TransitionSettings | classes/VideoProcessing.php:412-429 | after the defaults and the fills, the in/out widths and heights are always present |
| Generators.FillSizes | classes/VideoProcessing.php:418-429 | each missing in/out size is filled from `width` or `height`, and no other key changes |
| Generators.Filled | classes/VideoProcessing.php:418-429 | a filled size is always present |
| Generators.FillPair | classes/VideoProcessing.php:418-429 | two fills set their two keys and change no other |
| Generators.FilledKept | classes/VideoProcessing.php:418-429 | a later pair of fills does not disturb an earlier pair |
| Generators.DefaultTo | classes/VideoProcessing.php:418-420 | a missing key is set from its fallback key; a present one leaves the array unchanged |
| Generators.WipeParams | classes/VideoProcessing.php:534-550 | the luma mixer's settings: `resource`, `softness` (the caller's, else 0), `automatic=1`, `fill=1`, and `invert` 0 for `wipeIn` and 1 for `wipeOut` |
| Generators.SoftnessDefault | classes/VideoProcessing.php:534-538 | after the wipe defaults are merged, `softness` is the caller's value, else 0 |
| Generators.WipeResource | classes/VideoProcessing.php:534-542 | the wipe resource: without a `wipeName` the default `linear_x.pgm` in the wipes directory; a non-empty `wipeName` in that directory; an empty one gives the caller's `wipePath`, or the default `wipePath` (the same default image) when there is none |
| Generators.ShiftMixer | classes/VideoProcessing.php:439-528 | the `region` mixer of a shift, with its two-keyframe `composite.geometry` and, for an `Out` shift, the explicit tracks; `ShiftTracks` and `ShiftGeometry` state its properties |
| Generators.Mixer | classes/VideoProcessing.php:431-553 | the mixer of each supported transition kind: `luma` for a fade, `luma` with the wipe settings, or the shift's region mixer; `TransitionOptions` states its place |
| Generators.TransitionOptions | classes/VideoProcessing.php:431-553 | `mix` comes first; a known transition adds exactly one `mixer` option, `fade` adds `mixer=luma`, and an unknown one adds nothing |
| Generators.ShiftTracks | classes/VideoProcessing.php:450-528 | the `*Out` shifts carry `a_track=1, b_track=0`; the `*In` shifts carry only `region` and the geometry |
| Generators.ShiftGeometry | classes/VideoProcessing.php:439-528 | each shift's geometry is a two-keyframe string from frame 0 to the duration; an `*In` ends at 0/0 and an `*Out` starts at 0/0 |
| Generators.ShiftDefaults | classes/VideoProcessing.php:412-429 | without caller options, both keyframes use the frame size and opacity 100 |
| Generators.TransitionDefaultsAlone | classes/VideoProcessing.php:412-417 | the defaults alone set width, height and the opacities, and no in/out size |
| Generators.LastValueFour | classes/VideoProcessing.php:412-417 | the last value of a name among four default entries |
| Generators.TextSettings | classes/VideoProcessing.php:645-660 | the caller's text options override the thirteen defaults, key by key; only `geometry` can differ |
| Generators.SlideKeyframes | classes/VideoProcessing.php:662-683 | the slide animation, from the start offset at full size and the in-opacity to `0%/0%` at the duration and the out-opacity; `SlideReadsBack` and `SlideDefaults` state its properties |
| Generators.SlideStart | classes/VideoProcessing.php:667-680 | the text starts off-screen on exactly one axis: vertically for `top` and `bottom`, horizontally otherwise |
| Generators.Slide | classes/VideoProcessing.php:662-683 | the slide sets only `geometry`, and it does nothing without a non-empty `slideFrom` |
| Generators.SlideDefaults | classes/VideoProcessing.php:662-683 | a slide without duration or opacities runs from its side's offset to 0%/0% over 50 frames at opacity 100 |
| Generators.Attach | classes/VideoProcessing.php:626-630 | `['attach' => [filter], options]`, or `attach-track` to attach to every track; `TextOverlayOption` states its shape |
| Generators.TextOverlayOption | classes/VideoProcessing.php:643-694 | the overlay is `attach` or `attach-track` with `dynamictext:<text>`, then the merged options under key 0 |
| Generators.WatermarkSettings | classes/VideoProcessing.php:614-624 | the watermark options hold `composite.geometry` and none of width, height, left and top; every other key holds the caller's value |
| Generators.WatermarkMergeOther | classes/VideoProcessing.php:620 | outside the four placement keys, the merge with the watermark defaults reads the caller's value |
| Generators.Place | classes/VideoProcessing.php:621-624 | the geometry is the caller's own, or else `left/top:WxH`; the four placement keys are removed and every other key is unchanged |
| Generators.RemoveAll | classes/VideoProcessing.php:624 | `unset` of several keys removes those keys and keeps every other key |
| Generators.WatermarkKeepsGeometry | classes/VideoProcessing.php:621 | a caller's `composite.geometry` is kept as given |
| Generators.WatermarkDefaultGeometry | classes/VideoProcessing.php:614-624 | without options, the watermark covers the frame from 0/0 |
| Generators.PlaceAtOrigin | classes/VideoProcessing.php:621-622 | default placement gives `0/0:WxH` |
| Generators.WatermarkDefaultsAlone | classes/VideoProcessing.php:614-620 | the defaults alone set the frame size and the origin, and no geometry |
| Generators.WatermarkOption | classes/VideoProcessing.php:612-634 | the `watermark:` filter attached with the watermark settings; `WatermarkSettings`, `WatermarkKeepsGeometry` and `WatermarkDefaultGeometry` state them |
| Generators.BackgroundAudioOption | classes/VideoProcessing.php:593-603 | the audio track is the file then the options without `delay`, preceded by a `blank` of the delay when one is given; every other option of the caller reaches the last element unchanged |
| Profiles.Lookup | classes/VideoProcessing.php:279-368 | a name has a profile exactly when it is one of the eight table names |
| Profiles.ProfilesConsistent | classes/VideoProcessing.php:279-368 | every profile has whole frames per second, positive sizes, and a frame whose sample aspect gives its display aspect |
| Profiles.Atsc720p24RunsAt25 | classes/VideoProcessing.php:313-323 | `atsc_720p_24` runs at 25 frames per second, the same profile as `atsc_720p_25` |
| Commands.Structural | classes/VideoProcessing.php:160 | PHP 7's loose `in_array($key, innerKeys)`: an inner key name, or the positional key 0; `FlagRules` and `ScalarFlag` state what it decides |
| Commands.ProfileClause | classes/VideoProcessing.php:166-167 | the profile clause is present exactly for a truthy profile name and a target with a consumer, and then starts a new line |
| Commands.CommandText | classes/VideoProcessing.php:156-170 | the trimmed command of one target; its layout is `CommandLayout` |
| Commands.CommandFor | classes/VideoProcessing.php:156-171 | the command of a target that has options; `CommandsOfValue` states it is what `createCommands` stores |
| Commands.OptionText | classes/VideoProcessing.php:159-164 | what one option adds to a command: each top-level entry's flag and value in order; `OptionTextAppend`, `FlagRules` and `ScalarFlag` state its properties |
| Commands.ConsumerText | classes/VideoProcessing.php:179-190 | the consumer clause: nothing without a consumer, else the `-consumer avformat:"path"` head and the options after a line continuation; `ConsumerTextEnd` and `ConsumerString` state its properties |
| Commands.SettingBody | classes/VideoProcessing.php:248-258 | one numeric `name=value` setting makes the loop write `name=value ` |
| Commands.WordAfterBreak | classes/VideoProcessing.php:261-269 | a body of one truthy word with non-blank ends and a trailing space serialises as that word after a line continuation |
| Commands.SettingString | classes/VideoProcessing.php:242-270 | a single numeric setting serialises as `name=value` after a line continuation |
| Commands.StructuralSetting | classes/VideoProcessing.php:159-164 | a structural key over a single numeric setting adds no flag, only the setting after a line continuation |
| Commands.ClipOptionsText | classes/VideoProcessing.php:561-575 | `disableAudio` adds `audio_index=-1` and `disableVideo` adds `video_index=-1` to the command, each on a line of its own with no flag |
| Commands.Pieces | classes/VideoProcessing.php:158-164 | one text per element, in order |
| Commands.ConsumerHead | classes/VideoProcessing.php:184-186 | the consumer head `-consumer avformat:"<path>"` ends in a quote |
| Commands.Tabulate | classes/VideoProcessing.php:156-171 | the map has exactly the given keys, each mapped to its value |
| Commands.TabulateStep | classes/VideoProcessing.php:156-171 | one more loop turn adds exactly one key |
| Commands.CommandsOf | classes/VideoProcessing.php:150-172 | `commandsArray` has a command for exactly the targets that have options |
| Commands.CommandsOfStep | classes/VideoProcessing.php:156-171 | one turn of the `foreach` over targets adds the command of that target |
| Commands.CommandsOfValue | classes/VideoProcessing.php:156-171 | each target's command is `CommandText` of its own options and consumer |
| Commands.ConcatOfAppend | classes/VideoProcessing.php:158-164 | adding later pieces does not change the text of the earlier ones |
| Commands.ConcatAppend | classes/VideoProcessing.php:158-164 | the text of two runs of pieces is the text of the first followed by that of the second |
| Commands.RenderedAppend | classes/VideoProcessing.php:158-164 | rendering two runs of elements is rendering each, in order |
| Commands.RenderedSingle | classes/VideoProcessing.php:158-164 | one element renders as its own text |
| Commands.OptionTextAppend | classes/VideoProcessing.php:159-164 | an option's text is its entries' texts in insertion order |
| Commands.OptionsTextAppend | classes/VideoProcessing.php:158-165 | a target's options are written in the order they were added |
| Commands.FlagRules | classes/VideoProcessing.php:160-161 | structural keys and the top-level key 0 get no `-key` flag; other names and numbered keys do |
| Commands.ScalarFlag | classes/VideoProcessing.php:160-163 | a top-level scalar entry is written as `-key value`, e.g. `-mix 25` |
| Commands.FlatArgument | classes/VideoProcessing.php:163 | a flat array argument follows a line continuation as its tokens joined by single spaces |
| Commands.ConsumerTextEnd | classes/VideoProcessing.php:179-190 | a consumer clause ends in a character that `trim` keeps |
| Commands.TrimKeeps | classes/VideoProcessing.php:170 | `trim` keeps a concatenation whose ends are not blank, along with its first and last parts |
| Commands.CommandLayout | classes/VideoProcessing.php:150-172 | a target with a consumer gets the melt path, its options in order, the profile clause, then the consumer clause, with nothing trimmed away |
| Commands.NoConsumerNoClauses | classes/VideoProcessing.php:166-169 | a target without a consumer gets neither the profile clause nor a consumer clause |
| Commands.AddedOptionComesLast | classes/VideoProcessing.php:138-172 | an option added later is written after every earlier one, right before the profile and consumer clauses |
| Commands.AfterLast | classes/VideoProcessing.php:893-894 | the text after the last separator has no separator and is the input's suffix |
| Commands.Extension | classes/VideoProcessing.php:891-896 | an extension never holds a dot and is no longer than the path |
| Commands.ExtensionOf | classes/VideoProcessing.php:891-896 | the extension of `base.ext` is the lower-cased `ext`, even when `base` has dots |
| Commands.AfterLastSuffix | classes/VideoProcessing.php:893-894 | the text after the last dot of `base.ext` is `ext` |
| Commands.NoDotNoExtension | classes/VideoProcessing.php:893-894 | a path without a dot has no extension |
| Commands.InferFormat | classes/VideoProcessing.php:219-224 | the inferred format is always one with defaults |
| Commands.FormatFromExtension | classes/VideoProcessing.php:219-224 | a known extension is the format; an unknown one falls back to `mp4` |
| Commands.DefaultOptions | classes/VideoProcessing.php:201-218 | a format has defaults exactly when it is `mp4` or `webm` |
| Commands.ConsumerOptions | classes/VideoProcessing.php:229 | the consumer options are an array exactly when the format has defaults |
| Commands.ConsumerOptionsGet | classes/VideoProcessing.php:229 | the caller's consumer options override the format's defaults, key by key |
| Commands.FormatCodecs | classes/VideoProcessing.php:201-229 | without overrides, `webm` selects `libvpx`/`libvorbis` and `mp4` selects `libx264`/`aac` |
| Commands.CodecDefaultsValues | classes/VideoProcessing.php:201-218 | each default table names its video and audio codec once |
| Progress.SpaceRun | classes/VideoProcessing.php:745 | the `\s+` run: blanks up to it, no blank at its end |
| Progress.DigitsFrom | classes/VideoProcessing.php:745 | the `(\d+)` run: digits up to it, no digit at its end |
| Progress.DigitsStart | classes/VideoProcessing.php:745 | a match's digits start after the marker and its blanks |
| Progress.MatchEnd | classes/VideoProcessing.php:745 | a match ends after at least one digit, inside the log |
| Progress.LastBelow | classes/VideoProcessing.php:745-748 | a found position lies below the bound and satisfies the predicate |
| Progress.LastBelowIsLast | classes/VideoProcessing.php:745-748 | nothing beyond the found position satisfies the predicate, and nothing at all when none is found |
| Progress.LastBelowFound | classes/VideoProcessing.php:745-748 | a position followed by no other satisfying the predicate is the one found |
| Progress.MatchesDisjoint | classes/VideoProcessing.php:745 | two matches never overlap, so the last match `preg_match_all` reports is the last position where the pattern matches |
| Progress.NoMarkerInside | classes/VideoProcessing.php:745 | no character of a match but its first is a `p` |
| Progress.DigitsFromAll | classes/VideoProcessing.php:745 | a run of digits to the end is taken whole |
| Progress.LastPercentage | classes/VideoProcessing.php:745-748 | the value of the last `percentage:` match, 0 without one; `ReadsLastReport` states what it reads |
| Progress.ReadsLastReport | classes/VideoProcessing.php:745-748 | after melt appends `percentage: <v>`, the poll reads `v`, whatever the log held before |
| Progress.ReportMatches | classes/VideoProcessing.php:745 | an appended report is a match that runs to the end and captures the value's digits |
| Progress.Reconcile | classes/VideoProcessing.php:750-764 | the result is 100 or below 99; it is 100 exactly when the log says 99 or more, or a known pid is not running; otherwise it is the log's value |
| Progress.ResolvedPath | classes/VideoProcessing.php:731-737 | the log a poll reads: the given path, else `<tmp>/<runId>.txt` for a truthy run id, else none; `SessionNamesLog` and `Poll` state its use |
| Progress.EffectivePid | classes/VideoProcessing.php:756-758 | the pid a poll checks: the given one, else the session's; `Reconcile` and `PollReportsLog` state what it decides |
| Progress.Poll | classes/VideoProcessing.php:728-774 | null exactly when no log can be named or the log is missing; otherwise a value in 0..98 or exactly 100 |
| Progress.CompletedPollIsFinal | classes/VideoProcessing.php:766-771 | after a poll of 100 deletes its log and clears the session, the same poll returns null |
| Progress.PollReportsLog | classes/VideoProcessing.php:745-764 | a poll below 100 is the log's own value, which is below 99, and the known pid is running |
| Progress.SessionNamesLog | classes/VideoProcessing.php:731-736 | without a path, a poll reads `<tmp>/<runId>.txt` from the session |
| Melt.Host.constructor | classes/VideoProcessing.php:47-49 | the host starts with the given files, the given session state and an empty slot |
| Melt.Host.RecordLaunch | classes/VideoProcessing.php:708-719 | a launch records pid and run id in a started session; a failed launch clears the slot |
| Melt.VideoProcessing.constructor | classes/VideoProcessing.php:13-27 | the builder starts with profile `hdv_720_25p`, 1280x720 at 25 frames per second, no format and no options; that initial frame is the one the profile table gives `hdv_720_25p` |
| Melt.VideoProcessing.SetOutputSize | classes/VideoProcessing.php:57-62 | sets width and height and nothing else |
| Melt.VideoProcessing.SetFps | classes/VideoProcessing.php:95-99 | sets the frame rate and nothing else |
| Melt.VideoProcessing.SetOutputFormat | classes/VideoProcessing.php:115-119 | sets the format and nothing else |
| Melt.VideoProcessing.SetProfile | classes/VideoProcessing.php:370-375 | always records the name; a known profile sets width, height and fps (from `frame_rate_num`); an unknown one leaves them |
| Melt.VideoProcessing.AddOption | classes/VideoProcessing.php:138-145 | appends to the named target's list only; a new target joins the end of the targets; the target invariant holds |
| Melt.VideoProcessing.SetOutputVideoOptions | classes/VideoProcessing.php:199-233 | infers the format only when none is set; the target's consumer writes to the path with the defaults merged with the overrides |
| Melt.VideoProcessing.CreateCommands | classes/VideoProcessing.php:150-172 | the loop builds `CommandsOf` (one command per target with options), and nothing else changes |
| Melt.VideoProcessing.TargetCommand | classes/VideoProcessing.php:157-170 | the loop over one target's options builds exactly `CommandText` |
| Melt.VideoProcessing.OptionString | classes/VideoProcessing.php:159-164 | the loop over one option's entries builds exactly `OptionText` |
| Melt.VideoProcessing.EntryStep | classes/VideoProcessing.php:159-164 | one loop turn appends the entry's flag and value |
| Melt.VideoProcessing.ConsumerString | classes/VideoProcessing.php:179-190 | the consumer clause, or nothing for a target without a consumer |
| Melt.VideoProcessing.ClearOptions | classes/VideoProcessing.php:580-585 | options, consumers and format go; profile, frame settings and commands stay |
| Melt.VideoProcessing.GetCommandOutput | classes/VideoProcessing.php:395-400 | returns the target's command as the options stood (null without options), then drains the state, so a second call returns null |
| Melt.VideoProcessing.AddReadyMadeTransition | classes/VideoProcessing.php:410-555 | appends `mix`, then the transition's mixer, to the target only; the key set gains only that target, which joins the end of the target order when it is new, and no other target changes |
| Melt.VideoProcessing.AddTextOverlay | classes/VideoProcessing.php:643-694 | appends the overlay option to `main` only; the key set gains only that target, which joins the end of the target order when it is new, and no other target changes |
| Melt.VideoProcessing.AddWatermark | classes/VideoProcessing.php:612-634 | appends the watermark, placed by the current frame size, to `main` only; the key set gains only that target, which joins the end of the target order when it is new, and no other target changes |
| Melt.VideoProcessing.AddBackgroundAudio | classes/VideoProcessing.php:593-603 | appends the audio track to `main` only; the key set gains only that target, which joins the end of the target order when it is new, and no other target changes |
| Melt.VideoProcessing.DisableAudio | classes/VideoProcessing.php:561-565 | appends `clipOption audio_index=-1` to `main` only; the key set gains only that target, which joins the end of the target order when it is new, and no other target changes |
| Melt.VideoProcessing.DisableVideo | classes/VideoProcessing.php:571-575 | appends `clipOption video_index=-1` to `main` only; the key set gains only that target, which joins the end of the target order when it is new, and no other target changes |
| Melt.VideoProcessing.Redirected | classes/VideoProcessing.php:705-706 | the launched line starts with the command and adds the redirection of error output |
| Melt.VideoProcessing.Render | classes/VideoProcessing.php:700-720 | launches the drained `main` command with its errors sent to `<tmp>/<runId>.txt`; returns pid and log path on success and nulls on failure, and sets or clears the session |
| Melt.VideoProcessing.GetRenderingPercent | classes/VideoProcessing.php:728-774 | the result is `Poll`'s; a result of 100 deletes the log read and clears the session slot, and anything else changes nothing |

## Left out

- `execInBackground` (`popen`, `nohup`, `shell_exec`) launches an OS process. Its answer is the `launchedPid` parameter of `Render`.
- `getPidArr` shells out to `pidof`. The running pids are the `running` parameter of `GetRenderingPercent`.
- `getOutput` runs the command through `shell_exec`. Its compile-then-clear part is `GetCommandOutput`.
- `getClipProperties` parses the output of a shell call with an XML library.
- `logging` writes files and formats dates.
- `floatToString` does floating-point rounding and `number_format`.
- `isAssoc` is unused and depends on PHP's key sorting.
- `updateConfig` and the constructor's config array are not modelled. The melt path, the temporary directory and the wipes directory are constructor parameters.
- The getters `getWidth`, `getHeight`, `getFps` and `getFormat` are not separate members. They are the fields.
- `sleep(2)` at line 751 is a delay with no effect on the result.
- `uniqid` is random, so the run id is a parameter.
- `session_start` in the constructor is the `sessionStarted` flag of `Host`.
- The debug `print_r` at line 154 is output only.
- PHP `null` values inside option arrays are not modelled. `isset` is modelled as presence of the key.
- Numeric-string keys are not modelled; PHP would turn them into integer keys.
- PHP 8's strict `in_array` comparison at line 160 is not modelled. Under it, the top-level `-0` flag would be emitted.
- PhpText.LeadingInt: reads the `(int)` cast of a string as PHP 7.0 does, without the exponent form; PHP 7.1 and later read `"1e2"` as 100, the model as 1.
- Floating-point and boolean option values are not modelled. An option value is an integer, a string or an array.
- The 64-bit bounds of PHP integers are not modelled. The `(int)` cast of an over-long digit string is unbounded here.
