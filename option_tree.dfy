/**
 * The nested option arrays of the command builder and their serialiser
 * (`getOptionsString`).  A PHP array is an ordered sequence of entries, each
 * with a positional (integer) or a named (string) key; a value is a scalar or
 * another array.  `is_numeric` on a value is decided by the scalar's tag.
 */
module OptionTree {
  import opened PhpText

  datatype Scalar = Num(n: int) | Str(s: string)
  datatype Key = Pos(index: nat) | Named(name: string)
  datatype Node = Leaf(value: Scalar) | List(entries: seq<(Key, Node)>)
  type Entry = (Key, Node)

  /** The structural keys (`$innerKeys`): markers that are never written as
      flags of their own. */
  const InnerKeys: seq<string> := ["joinClips", "inputSource", "clipOption"]

  /** The line-continuation sequence `" \\" . PHP_EOL`. */
  const Continuation: string := " \\\n"

  /** A scalar where the serialiser puts a value inside an array: numbers
      bare, everything else in double quotes, followed by one space. */
  function ScalarText(v: Scalar): string {
    match v
    case Num(n) => IntToString(n) + " "
    case Str(s) => "\"" + s + "\" "
  }

  /** A scalar as PHP's string conversion writes it (concatenation and
      interpolation): no quotes. */
  function Raw(v: Scalar): string {
    match v
    case Num(n) => IntToString(n)
    case Str(s) => s
  }

  /** What one entry of an array adds to `$output`. */
  function EntryText(k: Key, v: Node): string
    decreases v
  {
    match v
    case List(inner) =>
      (if k.Named? then " -" + k.name + " " else "") + Trim(Prefix(v, |inner|)) + " "
    case Leaf(x) =>
      Assignment(k) + ScalarText(x)
  }

  /** The `key=` before a scalar: only for named keys that are not
      structural. */
  function Assignment(k: Key): string {
    if k.Named? && k.name !in InnerKeys then k.name + "=" else ""
  }

  /** The untrimmed `$output` after the loop has visited the first `n`
      entries of the array `parent`. */
  function Prefix(parent: Node, n: nat): string
    requires parent.List? && n <= |parent.entries|
    decreases parent, n
  {
    if n == 0 then ""
    else Prefix(parent, n - 1) + EntryText(parent.entries[n - 1].0, parent.entries[n - 1].1)
  }

  lemma PrefixStep(parent: Node, n: nat)
    requires parent.List? && n < |parent.entries|
    ensures Prefix(parent, n + 1) == Prefix(parent, n) + EntryText(parent.entries[n].0, parent.entries[n].1)
  {
  }

  /** The untrimmed `$output` after the loop over all the entries `es`. */
  function Body(es: seq<Entry>): string {
    Prefix(List(es), |es|)
  }

  /** Only the visited entries matter. */
  lemma {:induction false} PrefixOfPrefix(a: seq<Entry>, b: seq<Entry>, n: nat)
    requires n <= |a| && n <= |b| && a[..n] == b[..n]
    ensures Prefix(List(a), n) == Prefix(List(b), n)
  {
    if n > 0 {
      assert a[..n - 1] == a[..n][..n - 1];
      assert b[..n - 1] == b[..n][..n - 1];
      assert a[n - 1] == a[..n][n - 1];
      assert b[n - 1] == b[..n][n - 1];
      PrefixOfPrefix(a, b, n - 1);
    }
  }

  /** The loop step: one more entry appends its text. */
  lemma BodySnoc(es: seq<Entry>, e: Entry)
    ensures Body(es + [e]) == Body(es) + EntryText(e.0, e.1)
  {
    var es' := es + [e];
    assert es'[..|es|] == es[..|es|];
    PrefixOfPrefix(es', es, |es|);
  }

  /** `getOptionsString($options, $prefixNewLine, $prefixSpace)`. */
  function OptionsStringOf(options: Node, prefixNewLine: bool, prefixSpace: bool): string {
    match options
    case Leaf(v) => " " + Raw(v)
    case List(es) =>
      var output := Trim(Body(es));
      var prefix :=
        if !Falsy(output) && prefixSpace then " "
        else if !Falsy(output) && prefixNewLine then Continuation
        else "";
      prefix + output
  }

  /** The serialiser, accumulating `$output` entry by entry and recursing
      into nested arrays. */
  method OptionsString(options: Node, prefixNewLine: bool, prefixSpace: bool) returns (r: string)
    ensures r == OptionsStringOf(options, prefixNewLine, prefixSpace)
    decreases options, 2
  {
    if options.Leaf? {
      return " " + Raw(options.value);
    }
    var output := BodyString(options);
    output := Trim(output);
    var prefix := "";
    if !Falsy(output) && prefixNewLine {
      prefix := Continuation;
    }
    if !Falsy(output) && prefixSpace {
      prefix := " ";
    }
    r := prefix + output;
  }

  /** The loop of the serialiser over the entries of an array. */
  method BodyString(options: Node) returns (output: string)
    requires options.List?
    ensures output == Body(options.entries)
    decreases options, 1
  {
    var es := options.entries;
    output := "";
    var i := 0;
    while i < |es|
      invariant 0 <= i <= |es|
      invariant output == Prefix(options, i)
    {
      var key, value := es[i].0, es[i].1;
      assert es[i] in es;
      var piece := EntryString(key, value);
      PrefixStep(options, i);
      output := output + piece;
      i := i + 1;
    }
  }

  /** One pass of the loop body of the serialiser. */
  method EntryString(key: Key, value: Node) returns (piece: string)
    ensures piece == EntryText(key, value)
    decreases value, 3
  {
    if value.List? {
      var flag := if key.Named? then " -" + key.name + " " else "";
      var inner := OptionsString(value, false, false);
      assert inner == Trim(Prefix(value, |value.entries|));
      piece := flag + inner + " ";
    } else {
      piece := Assignment(key) + ScalarText(value.value);
    }
  }

  // ---------------------------------------------------------------------
  // Properties of the serialiser

  /** Entries are written in insertion order: the text of a concatenation
      is the concatenation of the texts. */
  lemma {:induction false} BodyAppend(a: seq<Entry>, b: seq<Entry>)
    ensures Body(a + b) == Body(a) + Body(b)
    decreases |b|
  {
    if b == [] {
      assert a + b == a;
    } else {
      var init, last := b[..|b| - 1], b[|b| - 1];
      assert a + b == (a + init) + [last] && b == init + [last];
      BodySnoc(a + init, last);
      BodySnoc(init, last);
      BodyAppend(a, init);
    }
  }

  /** A non-array argument is written as one space and its raw value. */
  lemma ScalarArgument(v: Scalar, prefixNewLine: bool, prefixSpace: bool)
    ensures OptionsStringOf(Leaf(v), prefixNewLine, prefixSpace) == " " + Raw(v)
    ensures v.Num? ==> OptionsStringOf(Leaf(v), prefixNewLine, prefixSpace) == " " + IntToString(v.n)
  {
  }

  /** The prefix rules: an empty body (PHP-empty, so also "0") has none;
      `prefixSpace` wins over `prefixNewLine`; the body itself is the
      trimmed text of the entries. */
  lemma PrefixRules(es: seq<Entry>, prefixNewLine: bool, prefixSpace: bool)
    ensures var body := Trim(Body(es));
      var r := OptionsStringOf(List(es), prefixNewLine, prefixSpace);
      && (Falsy(body) ==> r == body)
      && (!Falsy(body) && prefixSpace ==> r == " " + body)
      && (!Falsy(body) && prefixNewLine && !prefixSpace ==> r == Continuation + body)
      && (!prefixNewLine && !prefixSpace ==> r == body)
  {
  }

  /** A structural key is never written as `key=` before a scalar. */
  lemma InnerKeyScalarHasNoName(name: string, v: Scalar)
    requires name in InnerKeys
    ensures EntryText(Named(name), Leaf(v)) == ScalarText(v)
  {
  }

  /** A named nested array is always announced by ` -key `, structural key
      or not. */
  lemma NamedArrayIsFlagged(name: string, inner: seq<Entry>)
    ensures EntryText(Named(name), List(inner)) == " -" + name + " " + Trim(Body(inner)) + " "
  {
  }

  // ---------------------------------------------------------------------
  // Flat arrays of scalars: the shape of the output

  /** The token one scalar entry contributes: `key=value` for an ordinary
      named key, the bare or quoted value otherwise. */
  function Token(k: Key, v: Scalar): string {
    Assignment(k) + ScalarText(v)[..|ScalarText(v)| - 1]
  }

  function TokensOf(es: seq<Entry>): seq<string>
    requires forall i :: 0 <= i < |es| ==> es[i].1.Leaf?
  {
    if es == [] then []
    else TokensOf(es[..|es| - 1]) + [Token(es[|es| - 1].0, es[|es| - 1].1.value)]
  }

  /** Tokens separated by single spaces. */
  function Join(ts: seq<string>): string {
    if ts == [] then "" else if |ts| == 1 then ts[0] else Join(ts[..|ts| - 1]) + " " + ts[|ts| - 1]
  }

  /** Flat scalar entries whose names do not start with blank space. */
  predicate FlatEntries(es: seq<Entry>) {
    forall i :: 0 <= i < |es| ==>
      es[i].1.Leaf? && (es[i].0.Named? && es[i].0.name != [] ==> !IsTrimmed(es[i].0.name[0]))
  }

  /** The written form of a scalar is a non-blank token and one space. */
  lemma ScalarTextShape(v: Scalar)
    ensures var t := ScalarText(v);
      && |t| >= 2 && t == t[..|t| - 1] + " "
      && !IsTrimmed(t[0]) && !IsTrimmed(t[|t| - 2])
  {
    var t := ScalarText(v);
    match v
    case Num(n) =>
      var d := IntToString(n);
      assert t == d + " " && t[..|t| - 1] == d;
    case Str(s) =>
      assert t == ['"'] + s + ['"', ' '];
  }

  lemma TokenShape(k: Key, v: Scalar)
    requires k.Named? && k.name != [] ==> !IsTrimmed(k.name[0])
    ensures Settled(Token(k, v))
    ensures EntryText(k, Leaf(v)) == Token(k, v) + " "
  {
    var t := ScalarText(v);
    ScalarTextShape(v);
    var name := Assignment(k);
    var tok := t[..|t| - 1];
    assert Token(k, v) == name + tok;
    assert EntryText(k, Leaf(v)) == Token(k, v) + " " by {
      assert EntryText(k, Leaf(v)) == name + t;
      assert t == tok + " ";
    }
    assert Settled(Token(k, v)) by {
      assert (name + tok)[|name + tok| - 1] == t[|t| - 2];
      if name != [] {
        assert name == k.name + "=";
        assert (name + tok)[0] == name[0];
      }
    }
  }

  /** The tokens of a flat array: a token neither starts nor ends with blank
      space. */
  predicate Settled(t: string) {
    t != [] && !IsTrimmed(t[0]) && !IsTrimmed(t[|t| - 1])
  }

  lemma JoinSnoc(ts: seq<string>, t: string)
    ensures Join(ts + [t]) == if ts == [] then t else Join(ts) + " " + t
  {
    var u := ts + [t];
    assert u[..|u| - 1] == ts;
  }

  /** Settled tokens joined by spaces give a settled text. */
  lemma JoinSettled(ts: seq<string>, t: string)
    requires ts != [] ==> Settled(Join(ts))
    requires Settled(t)
    ensures Settled(Join(ts + [t]))
  {
    JoinSnoc(ts, t);
    if ts != [] {
      var j := Join(ts) + " " + t;
      assert j[0] == Join(ts)[0];
    }
  }

  lemma FlatInit(es: seq<Entry>)
    requires es != [] && FlatEntries(es)
    ensures FlatEntries(es[..|es| - 1])
  {
    var init := es[..|es| - 1];
    forall i | 0 <= i < |init|
      ensures init[i].1.Leaf? && (init[i].0.Named? && init[i].0.name != [] ==> !IsTrimmed(init[i].0.name[0]))
    {
      assert init[i] == es[i];
    }
  }

  lemma {:induction false} FlatBody(es: seq<Entry>)
    requires FlatEntries(es)
    ensures es != [] ==> Body(es) == Join(TokensOf(es)) + " " && Settled(Join(TokensOf(es)))
    ensures es == [] ==> Body(es) == ""
  {
    if es != [] {
      var init := es[..|es| - 1];
      var last := es[|es| - 1];
      var tok := Token(last.0, last.1.value);
      assert Body(es) == Body(init) + tok + " " by {
        TokenShape(last.0, last.1.value);
        assert es == init + [last];
        BodySnoc(init, last);
      }
      assert TokensOf(es) == TokensOf(init) + [tok];
      FlatInit(es);
      FlatBody(init);
      assert Settled(tok) by {
        TokenShape(last.0, last.1.value);
      }
      JoinSnoc(TokensOf(init), tok);
      JoinSettled(TokensOf(init), tok);
    }
  }

  /** A flat array of scalars serialises to its tokens in insertion order,
      separated by single spaces: numbers bare, other scalars quoted, ordinary
      named keys as `key=value`, structural keys without their name. */
  lemma FlatArrayOutput(es: seq<Entry>)
    requires FlatEntries(es)
    ensures OptionsStringOf(List(es), false, false) == Join(TokensOf(es))
  {
    FlatBody(es);
    PrefixRules(es, false, false);
    if es != [] {
      TrimTrailingSpace(Join(TokensOf(es)));
    }
  }

  // ---------------------------------------------------------------------
  // PHP array operations used to build option arrays

  /** `$a[$name]`, the value stored under a named key. */
  function Get(es: seq<Entry>, name: string): (r: Option<Node>)
    ensures r.Some? <==> exists i :: 0 <= i < |es| && es[i].0 == Named(name)
  {
    if es == [] then None
    else if es[0].0 == Named(name) then Some(es[0].1)
    else Get(es[1..], name)
  }

  /** `$a[$name] = $v`: overwrite in place, or append when the key is new. */
  function Put(es: seq<Entry>, name: string, v: Node): (r: seq<Entry>)
    ensures Get(r, name) == Some(v)
    ensures forall m :: m != name ==> Get(r, m) == Get(es, m)
    ensures |r| >= |es| && forall i :: 0 <= i < |es| ==> r[i].0 == es[i].0
  {
    if es == [] then [(Named(name), v)]
    else if es[0].0 == Named(name) then [(Named(name), v)] + es[1..]
    else [es[0]] + Put(es[1..], name, v)
  }

  /** `unset($a[$name])` */
  function Remove(es: seq<Entry>, name: string): (r: seq<Entry>)
    ensures Get(r, name) == None
    ensures forall m :: m != name ==> Get(r, m) == Get(es, m)
  {
    if es == [] then []
    else if es[0].0 == Named(name) then Remove(es[1..], name)
    else [es[0]] + Remove(es[1..], name)
  }

  function CountPositional(es: seq<Entry>): nat {
    if es == [] then 0 else CountPositional(es[..|es| - 1]) + (if es[|es| - 1].0.Pos? then 1 else 0)
  }

  /** `array_merge`, one entry at a time: named keys overwrite in place or
      are appended; positional entries are appended and renumbered. */
  function MergeInto(acc: seq<Entry>, es: seq<Entry>): seq<Entry>
    decreases |es|
  {
    if es == [] then acc
    else
      var next :=
        match es[0].0
        case Named(name) => Put(acc, name, es[0].1)
        case Pos(_) => acc + [(Pos(CountPositional(acc)), es[0].1)];
      MergeInto(next, es[1..])
  }

  /** `array_merge($defaults, $overrides)` */
  function Merge(defaults: seq<Entry>, overrides: seq<Entry>): seq<Entry> {
    MergeInto([], defaults + overrides)
  }

  /** The last value a sequence of entries gives to a named key. */
  function LastValue(es: seq<Entry>, name: string): (r: Option<Node>)
    ensures r.Some? <==> exists i :: 0 <= i < |es| && es[i].0 == Named(name)
  {
    if es == [] then None
    else if es[|es| - 1].0 == Named(name) then Some(es[|es| - 1].1)
    else LastValue(es[..|es| - 1], name)
  }

  /** The value of a key that no later entry names again is the last. */
  lemma {:induction false} LastValueUnique(es: seq<Entry>, k: nat, name: string)
    requires k < |es| && es[k].0 == Named(name)
    requires forall j :: k < j < |es| ==> es[j].0 != Named(name)
    ensures LastValue(es, name) == Some(es[k].1)
    decreases |es|
  {
    if k < |es| - 1 {
      var init := es[..|es| - 1];
      assert forall j :: k < j < |init| ==> init[j] == es[j];
      LastValueUnique(init, k, name);
    }
  }

  lemma {:induction false} LastValueCons(e: Entry, es: seq<Entry>, name: string)
    ensures LastValue([e] + es, name) ==
      if LastValue(es, name).Some? then LastValue(es, name)
      else if e.0 == Named(name) then Some(e.1) else None
    decreases |es|
  {
    if es != [] {
      assert ([e] + es)[..|[e] + es| - 1] == [e] + es[..|es| - 1];
      LastValueCons(e, es[..|es| - 1], name);
    }
  }

  /** Later entries win: after merging, a named key holds the last value the
      merged entries give it, or its old value when they give it none. */
  lemma {:induction false} MergeIntoGet(acc: seq<Entry>, es: seq<Entry>, name: string)
    ensures Get(MergeInto(acc, es), name) ==
      if LastValue(es, name).Some? then LastValue(es, name) else Get(acc, name)
    decreases |es|
  {
    if es != [] {
      var next :=
        match es[0].0
        case Named(n) => Put(acc, n, es[0].1)
        case Pos(_) => acc + [(Pos(CountPositional(acc)), es[0].1)];
      MergeIntoGet(next, es[1..], name);
      LastValueCons(es[0], es[1..], name);
      assert [es[0]] + es[1..] == es;
      if es[0].0.Pos? {
        GetAppend(acc, (Pos(CountPositional(acc)), es[0].1), name);
      }
    }
  }

  lemma {:induction false} GetAppend(acc: seq<Entry>, e: Entry, name: string)
    requires e.0.Pos?
    ensures Get(acc + [e], name) == Get(acc, name)
    decreases |acc|
  {
    if acc != [] {
      assert (acc + [e])[1..] == acc[1..] + [e];
      GetAppend(acc[1..], e, name);
    }
  }

  /** Caller overrides win over defaults; keys the caller does not give keep
      their default value. */
  lemma MergeGet(defaults: seq<Entry>, overrides: seq<Entry>, name: string)
    ensures LastValue(overrides, name).Some? ==> Get(Merge(defaults, overrides), name) == LastValue(overrides, name)
    ensures LastValue(overrides, name).None? ==> Get(Merge(defaults, overrides), name) == LastValue(defaults, name)
  {
    MergeIntoGet([], defaults + overrides, name);
    LastValueSplit(defaults, overrides, name);
  }

  lemma {:induction false} LastValueSplit(a: seq<Entry>, b: seq<Entry>, name: string)
    ensures LastValue(a + b, name) == if LastValue(b, name).Some? then LastValue(b, name) else LastValue(a, name)
    decreases |b|
  {
    if b == [] {
      assert a + b == a;
    } else {
      assert (a + b)[..|a + b| - 1] == a + b[..|b| - 1];
      LastValueSplit(a, b[..|b| - 1], name);
    }
  }

  /** Merging never moves an existing key: the entries already there keep
      their keys and positions. */
  lemma {:induction false} MergeIntoKeepsKeys(acc: seq<Entry>, es: seq<Entry>)
    ensures |MergeInto(acc, es)| >= |acc|
    ensures forall i :: 0 <= i < |acc| ==> MergeInto(acc, es)[i].0 == acc[i].0
    decreases |es|
  {
    if es != [] {
      var next :=
        match es[0].0
        case Named(n) => Put(acc, n, es[0].1)
        case Pos(_) => acc + [(Pos(CountPositional(acc)), es[0].1)];
      MergeIntoKeepsKeys(next, es[1..]);
    }
  }

  /** Keys that are all named and pairwise distinct, as in a PHP array
      literal with string keys. */
  predicate DistinctNames(es: seq<Entry>) {
    (forall i :: 0 <= i < |es| ==> es[i].0.Named?)
    && (forall i, j :: 0 <= i < j < |es| ==> es[i].0 != es[j].0)
  }

  /** Writing a key the array does not hold appends it. */
  lemma {:induction false} PutNew(es: seq<Entry>, name: string, v: Node)
    requires Get(es, name).None?
    ensures Put(es, name, v) == es + [(Named(name), v)]
  {
    if es != [] {
      PutNew(es[1..], name, v);
      assert [es[0]] + (es[1..] + [(Named(name), v)]) == es + [(Named(name), v)];
    }
  }

  /** Merging entries with fresh, distinct names appends them in order. */
  lemma {:induction false} MergeIntoFresh(acc: seq<Entry>, es: seq<Entry>)
    requires DistinctNames(es)
    requires forall i :: 0 <= i < |es| ==> Get(acc, es[i].0.name).None?
    ensures MergeInto(acc, es) == acc + es
    decreases |es|
  {
    if es != [] {
      var name := es[0].0.name;
      assert es[0].0 == Named(name);
      PutNew(acc, name, es[0].1);
      var next := acc + [es[0]];
      assert next + es[1..] == acc + es by {
        assert es == [es[0]] + es[1..];
      }
      assert MergeInto(acc, es) == MergeInto(next, es[1..]);
      FreshTail(acc, es);
      MergeIntoFresh(next, es[1..]);
    }
  }

  /** After the first entry is appended, the rest are still fresh. */
  lemma FreshTail(acc: seq<Entry>, es: seq<Entry>)
    requires es != [] && DistinctNames(es)
    requires forall i :: 0 <= i < |es| ==> Get(acc, es[i].0.name).None?
    ensures DistinctNames(es[1..])
    ensures forall i :: 0 <= i < |es| - 1 ==> Get(acc + [es[0]], es[1..][i].0.name).None?
  {
    forall i | 0 <= i < |es| - 1
      ensures Get(acc + [es[0]], es[1..][i].0.name).None?
    {
      assert es[1..][i] == es[i + 1];
      assert es[0].0 != es[i + 1].0;
      GetAppendOther(acc, es[0], es[i + 1].0.name);
    }
  }


  lemma {:induction false} GetAppendOther(acc: seq<Entry>, e: Entry, name: string)
    requires e.0 != Named(name)
    ensures Get(acc + [e], name) == Get(acc, name)
    decreases |acc|
  {
    if acc != [] {
      assert (acc + [e])[1..] == acc[1..] + [e];
      GetAppendOther(acc[1..], e, name);
    }
  }

  /** `array_merge` of a string-keyed literal with nothing is the literal. */
  lemma MergeNothing(defaults: seq<Entry>)
    requires DistinctNames(defaults)
    ensures Merge(defaults, []) == defaults
  {
    assert defaults + [] == defaults;
    MergeIntoFresh([], defaults);
  }
}
