/** The scrolling waterfall: a write head that wraps around a history of
    NUM_TILES tiles of TEXTURE_HEIGHT rows, a scratch texture used for
    ping-pong rendering, a view lag behind the write head, and the choice of
    the two tiles the composite pass shows. The GL calls are represented by
    a log of the passes issued and the texture indices each pass binds. */
module Plot {
  import opened Machine

  const TEXTURE_HEIGHT: nat := 1024
  const NUM_TILES: nat := 8
  const MAX_HEIGHT: nat := NUM_TILES * TEXTURE_HEIGHT
  /** Index of the scratch texture (`ztexture`), one past the history tiles. */
  const SCRATCH: nat := NUM_TILES
  /** Largest view lag `scroll` accepts: one tile short of the whole history. */
  const MAX_LAG: nat := (NUM_TILES - 1) * TEXTURE_HEIGHT - 1

  /** The four control fields of `WaterfallPlot`. */
  datatype PlotState = PlotState(yOffset: nat, pingpong: nat, timePosition: nat, scrollAdvance: bool)

  /** What holds of every state reachable from `new` through `update_plot`
      and `scroll`: the head is a row of the history, the ping-pong bit is
      the parity of the head, the lag is within range, and the view follows
      the head exactly when the lag is zero. */
  predicate Consistent(s: PlotState) {
    && s.yOffset < MAX_HEIGHT
    && s.pingpong == s.yOffset % 2
    && s.timePosition <= MAX_LAG
    && (s.scrollAdvance <==> s.timePosition == 0)
  }

  /** The state `new` builds. */
  function Initial(): (s: PlotState)
    ensures Consistent(s)
    ensures s.scrollAdvance && s.timePosition == 0
  {
    PlotState(0, 0, 0, true)
  }

  /** `pingpong ^= 1` on any value. */
  function Xor1(p: nat): (r: nat)
    ensures r % 2 != p % 2
    ensures r / 2 == p / 2
  {
    if p % 2 == 0 then p + 1 else p - 1
  }

  /** The tile that owns history row y (`target_texture`). */
  function TargetTile(y: nat): (t: nat)
    requires y < MAX_HEIGHT
    ensures t < NUM_TILES && t != SCRATCH
    ensures t * TEXTURE_HEIGHT <= y < (t + 1) * TEXTURE_HEIGHT
  {
    y / TEXTURE_HEIGHT
  }

  datatype Roles = Roles(front: nat, back: nat)

  /** The render target (`front_texture`) and render source (`back_texture`)
      of the waterfall pass: the target tile and the scratch texture, in an
      order the ping-pong bit decides. */
  function RolesFor(pingpong: nat, target: nat): (r: Roles)
    requires target < NUM_TILES
    ensures r.front != r.back
    ensures (r.front, r.back) == (target, SCRATCH) || (r.front, r.back) == (SCRATCH, target)
    ensures r.front == target <==> pingpong == 0
  {
    if pingpong == 0 then Roles(target, SCRATCH) else Roles(SCRATCH, target)
  }

  /** The lag after one `update_plot`: a paused view ages by one row until it
      reaches MAX_LAG; a following view stays where it is. */
  function AgedLag(lag: nat, scrollAdvance: bool): (r: nat)
    ensures lag <= r <= lag + 1
    ensures r == lag + 1 <==> !scrollAdvance && lag < MAX_LAG
  {
    if !scrollAdvance && lag < MAX_LAG then lag + 1 else lag
  }

  /** `scroll_offset`: the history row at the live edge of the view, `lag`
      rows behind the head y, modulo the history height. */
  function ScrollOffset(y: nat, lag: nat): (r: nat)
    ensures r < MAX_HEIGHT
    ensures (r + lag) % MAX_HEIGHT == y % MAX_HEIGHT
    ensures lag == 0 && y < MAX_HEIGHT ==> r == y
  {
    (y - lag) % MAX_HEIGHT
  }

  /** `tex_idx1`: the tile before tile t in the ring of history tiles. */
  function PrevTile(t: nat): (r: nat)
    requires t < NUM_TILES
    ensures r < NUM_TILES && r != t
    ensures (r + 1) % NUM_TILES == t
  {
    (t - 1) % NUM_TILES
  }

  /** The texture the composite pass binds for tile idx: the tile itself,
      except that the tile being written is replaced by the texture the
      waterfall pass just rendered into. */
  function Shown(idx: nat, target: nat, front: nat): nat {
    if idx == target then front else idx
  }

  /** Every index `update_plot` derives from the state it starts from. */
  datatype Frame = Frame(
    yOffset: nat,       // head after the advance
    target: nat,        // target_texture
    front: nat,         // front_texture, written by the waterfall pass
    back: nat,          // back_texture, read by the waterfall pass
    timePosition: nat,  // lag after ageing
    scrollOffset: nat,
    cmOffset: nat,      // sub-tile offset of the composite pass
    texIdx0: nat,
    texIdx1: nat,
    cmTex0: nat,        // textures bound by the composite pass
    cmTex1: nat)

  /** The index arithmetic of one `update_plot` from state s: the head row,
      the roles of the two textures, the aged lag, and the two adjacent
      tiles the view straddles (CompositeBindings states what the composite
      pass binds). */
  function FrameOf(s: PlotState): (f: Frame)
    ensures f.yOffset == (s.yOffset + 1) % MAX_HEIGHT
    ensures f.target == TargetTile(f.yOffset) && f.target != SCRATCH
    ensures f.front != f.back
    ensures (f.front, f.back) == (f.target, SCRATCH) || (f.front, f.back) == (SCRATCH, f.target)
    ensures f.front == f.target <==> s.pingpong == 0
    ensures f.timePosition == AgedLag(s.timePosition, s.scrollAdvance)
    ensures f.scrollOffset == ScrollOffset(f.yOffset, f.timePosition)
    ensures f.cmOffset < TEXTURE_HEIGHT && f.texIdx0 < NUM_TILES && f.texIdx1 < NUM_TILES
    ensures f.scrollOffset == f.texIdx0 * TEXTURE_HEIGHT + f.cmOffset
    ensures f.texIdx1 != f.texIdx0 && (f.texIdx1 + 1) % NUM_TILES == f.texIdx0
    ensures f.cmTex0 == Shown(f.texIdx0, f.target, f.front)
    ensures f.cmTex1 == Shown(f.texIdx1, f.target, f.front)
    ensures s.scrollAdvance && s.timePosition == 0 ==> f.scrollOffset == f.yOffset
  {
    var y := (s.yOffset + 1) % MAX_HEIGHT;
    var target := TargetTile(y);
    var roles := RolesFor(s.pingpong, target);
    var lag := AgedLag(s.timePosition, s.scrollAdvance);
    var scrollOffset := ScrollOffset(y, lag);
    var idx0 := scrollOffset / TEXTURE_HEIGHT;
    var idx1 := PrevTile(idx0);
    Frame(y, target, roles.front, roles.back, lag, scrollOffset, scrollOffset % TEXTURE_HEIGHT,
          idx0, idx1, Shown(idx0, target, roles.front), Shown(idx1, target, roles.front))
  }

  /** One render pass, standing for the GL calls that issue it. */
  datatype Pass =
      /** Render texture `source` into texture `target` with the waterfall
          program; `row` is the yOffset uniform, `samples` the samples uniform. */
    | WaterfallPass(source: nat, target: nat, row: nat, samples: seq<real>)
      /** Draw textures tex0 (unit 0) and tex1 (unit 1) to the screen with the
          colormap program; `offset` is its offset uniform. */
    | CompositePass(tex0: nat, tex1: nat, offset: nat)

  /** The two passes of one `update_plot`, in order. */
  function PassesOf(f: Frame, samples: seq<real>): (ps: seq<Pass>)
    ensures |ps| == 2 && ps[0].WaterfallPass? && ps[1].CompositePass?
    ensures ps[0].row < TEXTURE_HEIGHT && ps[0].samples == samples
  {
    [WaterfallPass(f.back, f.front, f.yOffset % TEXTURE_HEIGHT, samples),
     CompositePass(f.cmTex0, f.cmTex1, f.cmOffset)]
  }

  /** What the composite pass binds: two distinct existing textures,
      neither of them the stale back buffer the waterfall pass reads; a tile
      is replaced by the front texture exactly when it is the tile being
      written; and a following view shows the head's tile through the front
      texture. */
  lemma CompositeBindings(s: PlotState)
    ensures var f := FrameOf(s);
            && f.cmTex0 <= SCRATCH && f.cmTex1 <= SCRATCH && f.cmTex0 != f.cmTex1
            && f.cmTex0 != f.back && f.cmTex1 != f.back
            && (f.cmTex0 == f.texIdx0 || f.cmTex1 == f.texIdx1)
    ensures var f := FrameOf(s);
            && (f.cmTex0 != f.texIdx0 ==> f.cmTex0 == f.front && f.texIdx0 == f.target)
            && (f.cmTex1 != f.texIdx1 ==> f.cmTex1 == f.front && f.texIdx1 == f.target)
            && (f.texIdx0 == f.target ==> f.cmTex0 == f.front)
            && (f.texIdx1 == f.target ==> f.cmTex1 == f.front)
    ensures var f := FrameOf(s);
            s.scrollAdvance && s.timePosition == 0 ==> f.texIdx0 == f.target && f.cmTex0 == f.front
  {
    var f := FrameOf(s);
    if s.scrollAdvance && s.timePosition == 0 {
      assert f.scrollOffset == f.yOffset;
    }
  }

  /** The passes of one `update_plot` never sample a texture they render
      into: the waterfall pass reads back and writes front, and the composite
      pass binds two distinct textures, neither of them the stale back
      buffer, showing the freshly written texture exactly where the view
      reaches the tile being written. */
  lemma PassesReadNoTextureTheyWrite(s: PlotState, samples: seq<real>)
    ensures var f := FrameOf(s);
            var ps := PassesOf(f, samples);
            && ps[0].source != ps[0].target
            && ps[0].source <= SCRATCH && ps[0].target <= SCRATCH
            && ps[1].tex0 != ps[1].tex1
            && ps[1].tex0 != ps[0].source && ps[1].tex1 != ps[0].source
            && (ps[1].tex0 == ps[0].target <==> f.texIdx0 == f.target)
            && (ps[1].tex1 == ps[0].target <==> f.texIdx1 == f.target)
  {
    CompositeBindings(s);
  }

  /** The control fields after one `update_plot`. */
  function Update(s: PlotState): (r: PlotState)
    ensures r.yOffset == (s.yOffset + 1) % MAX_HEIGHT
    ensures r.pingpong % 2 != s.pingpong % 2
    ensures r.scrollAdvance == s.scrollAdvance
    ensures r.timePosition == AgedLag(s.timePosition, s.scrollAdvance)
    ensures Consistent(s) ==> Consistent(r)
  {
    ParitySucc(s.yOffset);
    RowParity(s.yOffset + 1);
    PlotState((s.yOffset + 1) % MAX_HEIGHT, Xor1(s.pingpong),
              AgedLag(s.timePosition, s.scrollAdvance), s.scrollAdvance)
  }

  /** The lag `scroll` computes, with the sum taken exactly. */
  function ScrollLag(lag: nat, val: int): (r: nat)
    ensures r <= MAX_LAG
    ensures 0 <= lag + val <= MAX_LAG ==> r == lag + val
    ensures lag + val >= MAX_LAG ==> r == MAX_LAG
    ensures lag + val <= 0 ==> r == 0
  {
    Clamp(lag + val)
  }

  /** `v.max(0).min(MAX_LAG)`: the point of [0, MAX_LAG] nearest to v. */
  function Clamp(v: int): (r: nat)
    ensures r <= MAX_LAG
    ensures forall x: int :: 0 <= x <= MAX_LAG ==> Dist(v, r) <= Dist(v, x)
  {
    if v < 0 then 0 else if v > MAX_LAG then MAX_LAG else v
  }

  /** The control fields after `scroll(val)`. */
  function ScrollState(s: PlotState, val: int): (r: PlotState)
    ensures r.yOffset == s.yOffset && r.pingpong == s.pingpong
    ensures r.timePosition == ScrollLag(s.timePosition, val) && r.timePosition <= MAX_LAG
    ensures r.scrollAdvance <==> r.timePosition == 0
    ensures Consistent(s) ==> Consistent(r)
  {
    var lag := ScrollLag(s.timePosition, val);
    PlotState(s.yOffset, s.pingpong, lag, lag == 0)
  }

  // ---------------------------------------------------------------------
  // The object

  class WaterfallPlot {
    var yOffset: nat
    var pingpong: nat
    var timePosition: nat
    var scrollAdvance: bool
    /** The render passes issued so far, oldest first. */
    var passes: seq<Pass>

    function State(): PlotState
      reads this
    {
      PlotState(yOffset, pingpong, timePosition, scrollAdvance)
    }

    ghost predicate Valid()
      reads this
    {
      Consistent(State())
    }

    constructor ()
      ensures State() == Initial() && passes == []
      ensures Valid()
    {
      pingpong := 0;
      timePosition := 0;
      yOffset := 0;
      scrollAdvance := true;
      passes := [];
    }

    /** `update_plot(samples_block)`: advance the head, paint the new row
        into the target tile by ping-pong rendering, age a paused view, and
        composite the two tiles the view straddles. */
    method UpdatePlot(samplesBlock: seq<real>)
      modifies this
      ensures State() == Update(old(State()))
      ensures passes == old(passes) + PassesOf(FrameOf(old(State())), samplesBlock)
      ensures old(Valid()) ==> Valid()
    {
      ghost var f := FrameOf(State());
      yOffset := (yOffset + 1) % MAX_HEIGHT;
      var targetTexture := TargetTile(yOffset);
      var ztexture := SCRATCH;
      var frontTexture, backTexture;
      if pingpong == 0 {
        frontTexture, backTexture := targetTexture, ztexture;
      } else {
        frontTexture, backTexture := ztexture, targetTexture;
      }

      if !scrollAdvance && timePosition < MAX_LAG {
        timePosition := timePosition + 1;
      }
      var scrollOffset := ScrollOffset(yOffset, timePosition);
      assert yOffset == f.yOffset && timePosition == f.timePosition && scrollOffset == f.scrollOffset;
      var cmOffset := scrollOffset % TEXTURE_HEIGHT;
      var texIdx0 := scrollOffset / TEXTURE_HEIGHT;
      var texIdx1 := PrevTile(texIdx0);
      var cmTex0 := Shown(texIdx0, targetTexture, frontTexture);
      var cmTex1 := Shown(texIdx1, targetTexture, frontTexture);

      passes := passes + [WaterfallPass(backTexture, frontTexture, yOffset % TEXTURE_HEIGHT, samplesBlock)];
      passes := passes + [CompositePass(cmTex0, cmTex1, cmOffset)];
      assert passes == old(passes) + PassesOf(f, samplesBlock);

      pingpong := Xor1(pingpong);
    }

    /** `scroll(val)`: move the view lag by val rows, clamped to
        [0, MAX_LAG]; the view follows the head again exactly at lag 0. */
    method Scroll(val: int)
      requires IsI32(val)
      modifies this
      ensures State() == ScrollState(old(State()), val)
      ensures passes == old(passes)
      ensures old(Valid()) ==> Valid()
    {
      timePosition := Clamp(timePosition + val);
      scrollAdvance := timePosition == 0;
    }
  }

  // ---------------------------------------------------------------------
  // Properties over runs

  /** The state after k calls of `update_plot` from s. */
  function Run(s: PlotState, k: nat): PlotState {
    if k == 0 then s else Update(Run(s, k - 1))
  }

  /** After k updates from `new` the head is k modulo the history height, the
      ping-pong bit is the parity of k, and the view still follows the head. */
  lemma {:induction false} RunFromNew(k: nat)
    ensures Run(Initial(), k) == PlotState(k % MAX_HEIGHT, k % 2, 0, true)
  {
    if k > 0 {
      RunFromNew(k - 1);
      var p := Run(Initial(), k - 1);
      assert p == PlotState((k - 1) % MAX_HEIGHT, (k - 1) % 2, 0, true);
      ModAdd(k - 1, 1);
      ParitySucc(k - 1);
      assert Run(Initial(), k) == PlotState(((k - 1) % MAX_HEIGHT + 1) % MAX_HEIGHT, Xor1((k - 1) % 2), AgedLag(0, true), true);
    }
  }

  lemma ParitySucc(a: nat)
    ensures Xor1(a % 2) == (a + 1) % 2
  {
    var q := a / 2;
    assert a == 2 * q + a % 2;
    if a % 2 == 0 {
      assert a + 1 == 2 * q + 1;
    } else {
      assert a + 1 == 2 * (q + 1);
    }
  }

  /** Tiles and the history have an even number of rows, so wrapping a row
      keeps its parity. */
  lemma RowParity(y: int)
    ensures (y % TEXTURE_HEIGHT) % 2 == y % 2
    ensures (y % MAX_HEIGHT) % 2 == y % 2
  {
    var q := y / TEXTURE_HEIGHT;
    assert y == 2 * (512 * q) + y % TEXTURE_HEIGHT;
    EvenShift(512 * q, y % TEXTURE_HEIGHT);
    var q' := y / MAX_HEIGHT;
    assert y == 2 * (4096 * q') + y % MAX_HEIGHT;
    EvenShift(4096 * q', y % MAX_HEIGHT);
  }

  lemma EvenShift(k: int, r: int)
    ensures (2 * k + r) % 2 == r % 2
  {
    var t := r / 2;
    assert 2 * k + r == 2 * (k + t) + r % 2;
  }

  /** The row after head a, within its tile, has the other parity than a. */
  lemma HeadParity(a: nat)
    ensures ((a + 1) % MAX_HEIGHT % TEXTURE_HEIGHT) % 2 != a % 2
  {
    RowParity((a + 1) % MAX_HEIGHT);
    RowParity(a + 1);
    var q := a / 2;
    assert a == 2 * q + a % 2;
  }

  /** The row the next update renders, within its tile, has the other
      parity than the ping-pong bit. */
  lemma HeadRowParity(s: PlotState)
    requires Consistent(s)
    ensures (FrameOf(s).yOffset % TEXTURE_HEIGHT) % 2 != s.pingpong
  {
    HeadParity(s.yOffset);
  }

  /** Wrapping around the history before or after adding c gives the same row. */
  lemma ModAdd(a: int, c: int)
    ensures (a % MAX_HEIGHT + c) % MAX_HEIGHT == (a + c) % MAX_HEIGHT
  {
    var q := a / MAX_HEIGHT;
    assert a == q * MAX_HEIGHT + a % MAX_HEIGHT;
    var x := a % MAX_HEIGHT + c;
    var r := x % MAX_HEIGHT;
    var p := x / MAX_HEIGHT;
    assert x == p * MAX_HEIGHT + r;
    assert a + c == (p + q) * MAX_HEIGHT + r;
  }

  /** A user command reaching the plot between redraws. */
  datatype Command = Redraw | ScrollBy(val: int)

  function Apply(s: PlotState, c: Command): PlotState
    requires c.ScrollBy? ==> IsI32(c.val)
  {
    match c
    case Redraw => Update(s)
    case ScrollBy(val) => ScrollState(s, val)
  }

  function Replay(s: PlotState, cs: seq<Command>): PlotState
    requires forall i :: 0 <= i < |cs| && cs[i].ScrollBy? ==> IsI32(cs[i].val)
  {
    if cs == [] then s else Apply(Replay(s, cs[..|cs| - 1]), cs[|cs| - 1])
  }

  /** Whatever the interleaving of redraws and scroll deltas, however large
      the deltas, the lag stays in [0, MAX_LAG], the head stays a row of the
      history and the ping-pong bit stays the parity of the head. */
  lemma {:induction false} ReplayKeepsConsistent(s: PlotState, cs: seq<Command>)
    requires Consistent(s)
    requires forall i :: 0 <= i < |cs| && cs[i].ScrollBy? ==> IsI32(cs[i].val)
    ensures Consistent(Replay(s, cs))
  {
    if cs != [] {
      ReplayKeepsConsistent(s, cs[..|cs| - 1]);
    }
  }

  /** A paused view below the maximum lag shows the same history row after
      an update as before it: the lag ages exactly as fast as the head. */
  lemma PausedViewHoldsStill(s: PlotState)
    requires Consistent(s) && !s.scrollAdvance && s.timePosition < MAX_LAG
    ensures FrameOf(s).scrollOffset == ScrollOffset(s.yOffset, s.timePosition)
  {
    var f := FrameOf(s);
    assert f.timePosition == s.timePosition + 1;
    ModAdd(s.yOffset + 1, -(s.timePosition + 1));
  }

  /** At the maximum lag a paused view moves along with the head, one row per
      update. */
  lemma MaxLagViewAdvances(s: PlotState)
    requires Consistent(s) && s.timePosition == MAX_LAG
    ensures FrameOf(s).scrollOffset == (ScrollOffset(s.yOffset, s.timePosition) + 1) % MAX_HEIGHT
  {
    var y := (s.yOffset + 1) % MAX_HEIGHT;
    var f := FrameOf(s);
    assert f.yOffset == y && f.timePosition == MAX_LAG;
    assert f.scrollOffset == (y - MAX_LAG) % MAX_HEIGHT;
    ModAdd(s.yOffset + 1, -(MAX_LAG as int));
    assert f.scrollOffset == (s.yOffset + 1 - MAX_LAG) % MAX_HEIGHT;
    ModAdd(s.yOffset - MAX_LAG, 1);
  }

  /** While the head stays within one tile, each waterfall pass reads the
      texture the previous pass wrote: the tile's content is carried forward
      row by row and no pass reads a texture it writes. */
  lemma ChainWithinTile(s: PlotState)
    requires Consistent(s)
    requires FrameOf(Update(s)).target == FrameOf(s).target
    ensures FrameOf(Update(s)).back == FrameOf(s).front
    ensures FrameOf(Update(s)).front == FrameOf(s).back
  {
    var s' := Update(s);
    assert s'.pingpong == Xor1(s.pingpong);
  }

  /** The last row of every tile is rendered into the tile's own texture, so
      once the head moves on the composite pass, which binds that tile
      directly, shows it complete. */
  lemma LastRowLandsInOwnTile(s: PlotState)
    requires Consistent(s)
    requires FrameOf(s).yOffset % TEXTURE_HEIGHT == TEXTURE_HEIGHT - 1
    ensures FrameOf(s).front == FrameOf(s).target
  {
    HeadRowParity(s);
    assert s.pingpong == 0;
  }

  /** The first row of a tile is rendered from that tile's own texture (its
      rows from the previous lap) into the scratch texture. */
  lemma FirstRowReadsOwnTile(s: PlotState)
    requires Consistent(s)
    requires FrameOf(s).yOffset % TEXTURE_HEIGHT == 0
    ensures FrameOf(s).back == FrameOf(s).target
    ensures FrameOf(s).front == SCRATCH
  {
    HeadRowParity(s);
    assert s.pingpong == 1;
  }

  /** When a view that moves with the head (following, or held at the
      maximum lag) crosses into a new tile, the first displayed tile
      advances by exactly one in the ring and the sub-tile offset is 0. */
  lemma TileBoundary(s: PlotState)
    requires Consistent(s) && (s.scrollAdvance || s.timePosition == MAX_LAG)
    requires FrameOf(Update(s)).cmOffset == 0
    ensures FrameOf(Update(s)).texIdx0 == (FrameOf(s).texIdx0 + 1) % NUM_TILES
  {
    var f, g := FrameOf(s), FrameOf(Update(s));
    if s.scrollAdvance {
      assert f.scrollOffset == f.yOffset;
      assert g.scrollOffset == g.yOffset;
    } else {
      MaxLagViewAdvances(Update(s));
      assert f.scrollOffset == ScrollOffset(Update(s).yOffset, MAX_LAG);
    }
    assert g.scrollOffset == (f.scrollOffset + 1) % MAX_HEIGHT;
    TileStep(f.scrollOffset);
  }

  /** Row x + 1 (wrapped) starting a tile lies in the tile after x's. */
  lemma TileStep(x: nat)
    requires x < MAX_HEIGHT && (x + 1) % MAX_HEIGHT % TEXTURE_HEIGHT == 0
    ensures (x + 1) % MAX_HEIGHT / TEXTURE_HEIGHT == (x / TEXTURE_HEIGHT + 1) % NUM_TILES
  {
    if x + 1 == MAX_HEIGHT {
      assert x / TEXTURE_HEIGHT == NUM_TILES - 1;
    } else {
      var t := (x + 1) / TEXTURE_HEIGHT;
      assert x + 1 == t * TEXTURE_HEIGHT;
      assert x == (t - 1) * TEXTURE_HEIGHT + (TEXTURE_HEIGHT - 1);
    }
  }

  /** k = 1025 redraws from `new` put the head on row 1025, in tile 1, with
      the view following; `scroll(2000)` then pauses the view 2000 rows back,
      `scroll(-2000)` from the live view stays at lag 0, and the paused view
      ages by one row on the next redraw. */
  lemma Scenario(k: nat)
    requires k == 1025
    ensures Run(Initial(), k) == PlotState(1025, 1, 0, true)
    ensures FrameOf(Run(Initial(), k - 1)).target == 1
    ensures ScrollState(Run(Initial(), k), 2000) == PlotState(1025, 1, 2000, false)
    ensures ScrollState(Run(Initial(), k), -2000) == Run(Initial(), k)
    ensures Update(ScrollState(Run(Initial(), k), 2000)).timePosition == 2001
  {
    assert k % MAX_HEIGHT == 1025;
    assert k % 2 == 1;
    RunFromNew(k);
    RunFromNew(k - 1);
  }

  // ---------------------------------------------------------------------
  // `scroll` as written: the i32 sum wraps

  /** The lag `scroll` computes as written: `time_position as i32 + val`
      wraps in i32 before it is clamped. */
  function ScrollLagAsWritten(lag: nat, val: int): (r: nat)
    requires lag <= MAX_LAG && IsI32(val)
    ensures r <= MAX_LAG
    ensures IsI32(lag + val) ==> r == ScrollLag(lag, val)
  {
    Clamp(WrapI32(lag + val))
  }

  /** A delta of i32::MAX from lag 1 overflows: the wrapped sum is i32::MIN,
      which clamps to lag 0 (following the head) instead of MAX_LAG. */
  lemma ScrollOverflowCounterexample()
    ensures ScrollLagAsWritten(1, I32_MAX) == 0
    ensures ScrollLag(1, I32_MAX) == MAX_LAG
  {
    assert WrapI32(1 + I32_MAX) == I32_MIN;
  }
}
