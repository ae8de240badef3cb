/** `buildStackTrace`, identical in both appenders: renders a throwable and
    at most three of its causes, with a per-level frame limit, into a
    string capped at 10000 characters. */
module StackTrace {
  import opened Wrappers
  import opened Strings

  /** One throwable of a cause chain.  `message` is `None` where the Java
      message is `null`; `frames` stand for the `toString()` of each
      stack-trace element. */
  datatype Throwable = Throwable(className: string, message: Option<string>, frames: seq<string>, cause: Option<Throwable>)

  const MaxLevel: int := 5
  const StandardLineLimit: nat := 2
  const CauseLineLimit: nat := 12
  const MaxStackLength: nat := 10000
  const CausedBy: string := "Caused by: "

  /** Frames shown for one level: 2 while a cause follows, 12 for the last
      throwable of the chain. */
  function LineLimit(t: Throwable): (r: nat)
    ensures r >= 1
  {
    if t.cause.None? then CauseLineLimit else StandardLineLimit
  }

  /** `StringBuilder.append(String)` writes "null" for a null string. */
  function JavaText(s: Option<string>): string
  {
    match s
    case None => "null"
    case Some(v) => v
  }

  // ---------------------------------------------------------------------
  // The untruncated rendering, level by level

  function FrameLine(frame: string): string
  {
    "\t" + frame + "\n"
  }

  /** One tab-indented line per frame, in order. */
  function FrameLines(frames: seq<string>): string
  {
    if frames == [] then "" else FrameLine(frames[0]) + FrameLines(frames[1..])
  }

  /** The summary line, present exactly when frames were cut. */
  function OmittedLine(total: nat, limit: nat): string
  {
    if total > limit then "\t... " + NatToString(total - limit) + " lines omitted \n" else ""
  }

  /** The first line of a level: "Caused by: " below the top level, then
      the class name and the message. */
  function Header(t: Throwable, level: int): string
  {
    (if level > 1 then CausedBy else "") + t.className + ": " + JavaText(t.message) + "\n"
  }

  /** What level `level` contributes for throwable `t`. */
  function Block(t: Throwable, level: int): string
  {
    var limit := LineLimit(t);
    Header(t, level) + FrameLines(t.frames[..Min(|t.frames|, limit)]) + OmittedLine(|t.frames|, limit)
  }

  /** The full rendering from `level` on, before any truncation. */
  function Render(t: Throwable, level: int): string
  {
    if level >= MaxLevel then ""
    else Block(t, level) + match t.cause
      case None => ""
      case Some(c) => Render(c, level + 1)
  }

  /** The throwable followed by its causes, outermost first. */
  function Chain(t: Throwable): (r: seq<Throwable>)
    ensures |r| >= 1 && r[0] == t
  {
    [t] + match t.cause
      case None => []
      case Some(c) => Chain(c)
  }

  function Concat(parts: seq<string>): string
  {
    if parts == [] then "" else parts[0] + Concat(parts[1..])
  }

  /** The blocks of the first `MaxLevel - level` throwables of the chain,
      the k-th one rendered at level `level + k`. */
  function LevelBlocks(t: Throwable, level: int): (r: seq<string>)
    requires level <= MaxLevel
  {
    var chain := Chain(t);
    seq(Min(|chain|, MaxLevel - level), k requires 0 <= k < Min(|chain|, MaxLevel - level) => Block(chain[k], level + k))
  }

  /** Only the first four throwables of the chain are rendered, the k-th
      (from 0) at level k + 1, each as its own block, in chain order. */
  lemma {:induction false} RenderIsFirstFourLevels(t: Throwable)
    ensures Render(t, 1) == Concat(LevelBlocks(t, 1))
    ensures |LevelBlocks(t, 1)| == Min(|Chain(t)|, 4)
  {
    RenderIsLevelBlocks(t, 1);
  }

  /** The chain of a throwable with a cause is the throwable followed by
      the cause's chain. */
  lemma {:induction false} ChainStep(t: Throwable)
    ensures t.cause.None? ==> Chain(t) == [t]
    ensures t.cause.Some? ==> Chain(t) == [t] + Chain(t.cause.value)
  {
  }

  /** Below level 5 the blocks are this level's block followed by the
      cause's blocks one level down. */
  lemma {:induction false} LevelBlocksStep(t: Throwable, level: int)
    requires level < MaxLevel
    ensures t.cause.None? ==> LevelBlocks(t, level) == [Block(t, level)]
    ensures t.cause.Some? ==> LevelBlocks(t, level) == [Block(t, level)] + LevelBlocks(t.cause.value, level + 1)
  {
    var blocks := LevelBlocks(t, level);
    ChainStep(t);
    assert blocks[0] == Block(t, level);
    if t.cause.Some? {
      var c := t.cause.value;
      var rest := LevelBlocks(c, level + 1);
      assert |blocks| == 1 + |rest|;
      forall k | 1 <= k < |blocks|
        ensures blocks[k] == rest[k - 1]
      {
        assert Chain(t)[k] == Chain(c)[k - 1];
      }
      assert blocks == [blocks[0]] + rest;
    }
  }

  lemma {:induction false} ConcatCons(x: string, parts: seq<string>)
    ensures Concat([x] + parts) == x + Concat(parts)
  {
    assert ([x] + parts)[1..] == parts;
  }

  lemma {:induction false} RenderIsLevelBlocks(t: Throwable, level: int)
    requires level <= MaxLevel
    ensures Render(t, level) == Concat(LevelBlocks(t, level))
    decreases t
  {
    if level == MaxLevel {
      assert LevelBlocks(t, level) == [];
    } else {
      RenderStep(t, level);
      LevelBlocksStep(t, level);
      match t.cause
      case None =>
        ConcatCons(Block(t, level), []);
      case Some(c) =>
        RenderIsLevelBlocks(c, level + 1);
        ConcatCons(Block(t, level), LevelBlocks(c, level + 1));
    }
  }

  // ---------------------------------------------------------------------
  // The Java procedure: a StringBuilder threaded through the recursion

  /** Appending frame `k`'s line and then the lines of frames `k + 1` to
      `n` is appending the lines of frames `k` to `n`. */
  lemma {:induction false} FrameLinesStep(sb: string, frames: seq<string>, k: nat, n: int)
    requires k < |frames| && n <= |frames|
    ensures k < n ==> (sb + "\t" + frames[k] + "\n") + FrameLines(frames[k + 1..n]) == sb + FrameLines(frames[k..n])
  {
    if k < n {
      assert frames[k..n][1..] == frames[k + 1..n];
      assert frames[k..n][0] == frames[k];
    }
  }

  /** The `for` loop over the frames, from frame `k` on, with `i == k`
      frames appended so far and `totalLines` frames not yet appended.
      Entered at `k == 0` with every frame outstanding, it appends the
      first `min(n, limit)` frame lines and then the summary line exactly
      when frames remain. */
  function AppendFrames(sb: string, frames: seq<string>, k: nat, totalLines: int, limit: int): (r: string)
    requires k <= |frames|
    ensures k < limit && totalLines == |frames| - k ==>
      r == sb + FrameLines(frames[k..Min(|frames|, limit)]) + OmittedLine(|frames|, limit)
    decreases |frames| - k
  {
    if k == |frames| then
      assert frames[k..k] == [];
      sb
    else
      var sb1 := sb + "\t" + frames[k] + "\n";
      var i := k + 1;
      var rest := totalLines - 1;
      FrameLinesStep(sb, frames, k, Min(|frames|, limit));
      if i >= limit then
        assert frames[k + 1..k + 1] == [];
        if rest > 0 then sb1 + "\t... " + NatToString(rest) + " lines omitted \n" else sb1
      else AppendFrames(sb1, frames, k + 1, rest, limit)
  }

  /** Below level 5 the rendering is this level's block followed by the
      cause's rendering one level down. */
  lemma {:induction false} RenderStep(t: Throwable, level: int)
    requires level < MaxLevel
    ensures t.cause.None? ==> Render(t, level) == Block(t, level)
    ensures t.cause.Some? ==> Render(t, level) == Block(t, level) + Render(t.cause.value, level + 1)
  {
  }

  /** One level of `buildStackTrace`: the header appends, then the frame
      loop. */
  function AppendLevelText(sb: string, t: Throwable, level: int): string
  {
    AppendFrames(sb + Header(t, level), t.frames, 0, |t.frames|, LineLimit(t))
  }

  /** The header appends plus the frame loop append exactly the level's
      block. */
  lemma {:induction false} AppendLevel(sb: string, t: Throwable, level: int)
    ensures AppendLevelText(sb, t, level) == sb + Block(t, level)
  {
    var limit := LineLimit(t);
    var n := Min(|t.frames|, limit);
    var h := sb + Header(t, level);
    assert t.frames[0..n] == t.frames[..n];
    AppendAssoc3(sb, Header(t, level), FrameLines(t.frames[..n]), OmittedLine(|t.frames|, limit));
  }

  /** The `sb.delete(MAX_STACK_LENGTH, sb.length())` applied at the end of
      every level, with `MAX_STACK_LENGTH` = 10000. */
  function Cut(s: string): string
  {
    if |s| > MaxStackLength then s[..MaxStackLength] else s
  }

  lemma {:induction false} CutIsPrefix(s: string)
    ensures Cut(s) == Prefix(s, MaxStackLength)
  {
  }

  /** Cutting an already cut string changes nothing. */
  lemma {:induction false} CutPrefix(s: string)
    ensures Cut(Prefix(s, MaxStackLength)) == Prefix(s, MaxStackLength)
  {
  }

  lemma {:induction false} AppendAssoc(a: string, b: string, c: string)
    ensures (a + b) + c == a + (b + c)
  {
  }

  lemma {:induction false} AppendAssoc3(a: string, b: string, c: string, d: string)
    ensures (a + b) + c + d == a + (b + c + d)
  {
  }

  /** `buildStackTrace(sb, t, level)`: append this level (when `level < 5`)
      and, when there is a cause, recurse on it; then cut the builder to
      10000 characters.  All appends happen before any cut, so the builder
      ends as the first 10000 characters of everything appended. */
  function BuildStackTrace(sb: string, t: Throwable, level: int): (r: string)
    ensures r == Prefix(sb + Render(t, level), MaxStackLength)
    decreases t
  {
    if level < MaxLevel then
      var sb2 := AppendLevelText(sb, t, level);
      AppendLevel(sb, t, level);
      RenderStep(t, level);
      match t.cause
      case None =>
        CutIsPrefix(sb2);
        Cut(sb2)
      case Some(c) =>
        AppendAssoc(sb, Block(t, level), Render(c, level + 1));
        CutPrefix(sb2 + Render(c, level + 1));
        Cut(BuildStackTrace(sb2, c, level + 1))
    else
      assert sb + Render(t, level) == sb;
      CutIsPrefix(sb);
      Cut(sb)
  }

  /** Every rendered level starts with a non-empty header. */
  lemma {:induction false} RenderNonEmpty(t: Throwable, level: int)
    requires level < MaxLevel
    ensures |Render(t, level)| > 0
  {
    RenderStep(t, level);
    assert |Header(t, level)| > 0;
  }

  /** The `error` column: "" without a throwable, otherwise the rendering
      from level 1 cut to its first 10000 characters. */
  function StackTraceOf(t: Option<Throwable>): (r: string)
    ensures |r| <= MaxStackLength
    ensures r == "" <==> t.None?
    ensures t.Some? ==> r == Prefix(Render(t.value, 1), MaxStackLength)
  {
    match t
    case None => ""
    case Some(e) =>
      RenderNonEmpty(e, 1);
      assert "" + Render(e, 1) == Render(e, 1);
      BuildStackTrace("", e, 1)
  }
}
