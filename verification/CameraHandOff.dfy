/** The camera hand-off of raytracing.cpp: the latched matrices and the display-list commands that give them
    to the renderer. A word of memory holds either bits or a float, as it was written. */
module CameraHandOff {
  import opened MatrixInverse

  datatype Word = Bits(n: nat) | Flt(x: real)

  const BASE: nat := 0x8000_0000
  const CAMERA_MATRIX: nat := 0x8006_2BA8
  const HOOK_OPCODE: nat := 0xE0
  const HOOK_MAGIC: nat := 0x525464
  const HOOK_OP_ENABLE: nat := 0x1
  const EXTENDED_OPCODE: nat := 0x64
  const SET_PROJ: nat := 0x00002D
  const SET_VIEW: nat := 0x00002E
  const G_DL: nat := 0xDE
  const NOPUSH: nat := 0x01

  /** The word of memory behind a virtual address. */
  function Ix(vaddr: nat): int {
    (vaddr - BASE) / 4
  }

  /** n words from vaddr on lie in memory. */
  predicate InRam(ram: seq<Word>, vaddr: nat, n: nat) {
    vaddr >= BASE && vaddr % 4 == 0 && Ix(vaddr) + n <= |ram|
  }

  /** word_float: what a word reads as, `floatOf` deciding for plain bits. */
  function FloatOf(floatOf: nat -> real, w: Word): real {
    match w
    case Flt(x) => x
    case Bits(n) => floatOf(n)
  }

  function MatrixAt(floatOf: nat -> real, ram: seq<Word>, vaddr: nat): (m: seq<real>)
    requires InRam(ram, vaddr, 16)
    ensures Matrix(m)
  {
    seq(16, i requires 0 <= i < 16 => FloatOf(floatOf, ram[Ix(vaddr) + i]))
  }

  function Floats(floatOf: nat -> real, ws: seq<Word>): (m: seq<real>)
    ensures |m| == |ws| && forall i :: 0 <= i < |ws| ==> m[i] == FloatOf(floatOf, ws[i])
  {
    seq(|ws|, i requires 0 <= i < |ws| => FloatOf(floatOf, ws[i]))
  }

  // ---------------------------------------------------------------- the product

  /** v is c times q. */
  ghost predicate IsProduct(v: seq<real>, c: seq<real>, q: seq<real>) {
    && Matrix(v) && Matrix(c) && Matrix(q)
    && forall r, k :: 0 <= r < 4 && 0 <= k < 4 ==> v[r * 4 + k] == ProductAt(c, q, r, k)
  }

  /** If v is c times the left inverse of p, then v times p is c. */
  lemma ProductUndone(v: seq<real>, c: seq<real>, q: seq<real>, p: seq<real>, r: nat, k: nat)
    requires IsProduct(v, c, q) && LeftInverse(q, p) && r < 4 && k < 4
    ensures ProductAt(v, p, r, k) == c[r * 4 + k]
  {
    hide IsProduct, LeftInverse, ProductAt, Identity, Dot;
    RowOfProduct(v, c, q, r);
    var c0, c1, c2, c3 := c[r * 4], c[r * 4 + 1], c[r * 4 + 2], c[r * 4 + 3];
    ColumnOfInverse(q, p, k);
    RowTimesColumn(v, p, r, k);
    Reassociate(c0, c1, c2, c3, q, p[k], p[4 + k], p[8 + k], p[12 + k]);
    Selects(c0, c1, c2, c3, k);
    SelectsAt(c, r, k);
  }

  lemma ProductIsUndone(v: seq<real>, c: seq<real>, q: seq<real>, p: seq<real>)
    requires IsProduct(v, c, q) && LeftInverse(q, p)
    ensures IsProduct(c, v, p)
  {
    assert Matrix(c) && Matrix(v) && Matrix(p);
    hide ProductAt, LeftInverse;
    forall r, k | 0 <= r < 4 && 0 <= k < 4 ensures ProductAt(v, p, r, k) == c[r * 4 + k] {
      ProductUndone(v, c, q, p, r, k);
    }
  }

  lemma RowOfProduct(v: seq<real>, c: seq<real>, q: seq<real>, r: nat)
    requires IsProduct(v, c, q) && r < 4
    ensures Matrix(v) && Matrix(c) && Matrix(q)
    ensures var c0, c1, c2, c3 := c[r * 4], c[r * 4 + 1], c[r * 4 + 2], c[r * 4 + 3];
            && v[r * 4] == Dot(c0, c1, c2, c3, q[0], q[4], q[8], q[12])
            && v[r * 4 + 1] == Dot(c0, c1, c2, c3, q[1], q[5], q[9], q[13])
            && v[r * 4 + 2] == Dot(c0, c1, c2, c3, q[2], q[6], q[10], q[14])
            && v[r * 4 + 3] == Dot(c0, c1, c2, c3, q[3], q[7], q[11], q[15])
  {
    hide Dot, ProductAt;
    forall k | 0 <= k < 4 ensures v[r * 4 + k] == ProductAt(c, q, r, k) {
    }
    RowTimesColumn(c, q, r, 0);
    RowTimesColumn(c, q, r, 1);
    RowTimesColumn(c, q, r, 2);
    RowTimesColumn(c, q, r, 3);
  }

  lemma ColumnOfInverse(q: seq<real>, p: seq<real>, k: nat)
    requires LeftInverse(q, p) && k < 4
    ensures Matrix(q) && Matrix(p)
    ensures Dot(q[0], q[1], q[2], q[3], p[k], p[4 + k], p[8 + k], p[12 + k]) == Identity(0, k)
    ensures Dot(q[4], q[5], q[6], q[7], p[k], p[4 + k], p[8 + k], p[12 + k]) == Identity(1, k)
    ensures Dot(q[8], q[9], q[10], q[11], p[k], p[4 + k], p[8 + k], p[12 + k]) == Identity(2, k)
    ensures Dot(q[12], q[13], q[14], q[15], p[k], p[4 + k], p[8 + k], p[12 + k]) == Identity(3, k)
  {
    hide Dot, ProductAt, Identity;
    RowTimesColumn(q, p, 0, k);
    RowTimesColumn(q, p, 1, k);
    RowTimesColumn(q, p, 2, k);
    RowTimesColumn(q, p, 3, k);
  }

  lemma SelectsAt(c: seq<real>, r: nat, k: nat)
    requires |c| == 16 && r < 4 && k < 4
    ensures [c[r * 4], c[r * 4 + 1], c[r * 4 + 2], c[r * 4 + 3]][k] == c[r * 4 + k]
  {
  }

  lemma Selects(c0: real, c1: real, c2: real, c3: real, k: nat)
    requires k < 4
    ensures Dot(c0, c1, c2, c3, Identity(0, k), Identity(1, k), Identity(2, k), Identity(3, k)) == [c0, c1, c2, c3][k]
  {
  }

  // ---------------------------------------------------------------- what the renderer does with the commands

  datatype Renderer = Renderer(pc: nat, enabled: bool, view: nat, proj: nat)

  /** One 8-byte command of the display list; one that is not among the four changes nothing here. */
  function Execute(ram: seq<Word>, s: Renderer): Renderer
    requires InRam(ram, s.pc, 2)
  {
    var w0, w1 := ram[Ix(s.pc)], ram[Ix(s.pc) + 1];
    if w0.Flt? || w1.Flt? then s else ExecuteWords(s, w0.n, w1.n)
  }

  function ExecuteWords(s: Renderer, w0: nat, w1: nat): Renderer {
    if w0 == HOOK_OPCODE * 0x100_0000 + HOOK_MAGIC
    then s.(pc := s.pc + 8, enabled := w1 / 0x1000_0000 == HOOK_OP_ENABLE)
    else if w0 / 0x100_0000 == EXTENDED_OPCODE && w0 % 0x100_0000 == SET_VIEW then s.(pc := s.pc + 8, view := w1)
    else if w0 / 0x100_0000 == EXTENDED_OPCODE && w0 % 0x100_0000 == SET_PROJ then s.(pc := s.pc + 8, proj := w1)
    else if w0 / 0x100_0000 == G_DL && w0 / 0x1_0000 % 0x100 == NOPUSH then s.(pc := w1)
    else s
  }

  /** The four commands one by one. */
  lemma CommandWords(s: Renderer, gfx: nat)
    ensures var c := Commands(gfx);
            && ExecuteWords(s, c[0], c[1]) == s.(pc := s.pc + 8, enabled := true)
            && ExecuteWords(s, c[2], c[3]) == s.(pc := s.pc + 8, view := gfx + 32)
            && ExecuteWords(s, c[4], c[5]) == s.(pc := s.pc + 8, proj := gfx + 96)
            && ExecuteWords(s, c[6], c[7]) == s.(pc := gfx + 160)
  {
  }

  /** The eight command words. */
  function Commands(gfx: nat): (c: seq<nat>)
    ensures |c| == 8
  {
    [ HOOK_OPCODE * 0x100_0000 + HOOK_MAGIC, HOOK_OP_ENABLE * 0x1000_0000 + EXTENDED_OPCODE,
      EXTENDED_OPCODE * 0x100_0000 + SET_VIEW, gfx + 32,
      EXTENDED_OPCODE * 0x100_0000 + SET_PROJ, gfx + 96,
      G_DL * 0x100_0000 + NOPUSH * 0x1_0000, gfx + 160 ]
  }

  /** The commands and matrices a hand-off leaves at gfx, and nothing else changed. */
  ghost predicate Emitted(ram: seq<Word>, before: seq<Word>, gfx: nat, view: seq<Word>, proj: seq<Word>) {
    && |ram| == |before| && InRam(ram, gfx, 40) && |view| == |proj| == 16
    && (forall i :: 0 <= i < 8 ==> ram[Ix(gfx) + i] == Bits(Commands(gfx)[i]))
    && (forall i :: 0 <= i < 16 ==> ram[Ix(gfx) + 8 + i] == view[i] && ram[Ix(gfx) + 24 + i] == proj[i])
    && (forall i :: 0 <= i < |ram| && !(Ix(gfx) <= i < Ix(gfx) + 40) ==> ram[i] == before[i])
  }

  /** Running them enables the extension, points it at the two matrices and branches behind them. */
  lemma CommandsRun(ram: seq<Word>, before: seq<Word>, gfx: nat, view: seq<Word>, proj: seq<Word>, s0: Renderer)
    returns (s1: Renderer, s2: Renderer, s3: Renderer)
    requires Emitted(ram, before, gfx, view, proj) && s0.pc == gfx
    ensures s1 == Execute(ram, s0) && InRam(ram, s1.pc, 2) && s2 == Execute(ram, s1)
    ensures InRam(ram, s2.pc, 2) && s3 == Execute(ram, s2) && InRam(ram, s3.pc, 2)
    ensures Execute(ram, s3) == Renderer(gfx + 160, true, gfx + 32, gfx + 96)
  {
    hide Emitted, Commands, ExecuteWords, InRam;
    CommandAt(ram, before, gfx, view, proj, s0, 0);
    CommandWords(s0, gfx);
    s1 := Execute(ram, s0);
    CommandAt(ram, before, gfx, view, proj, s1, 1);
    CommandWords(s1, gfx);
    s2 := Execute(ram, s1);
    CommandAt(ram, before, gfx, view, proj, s2, 2);
    CommandWords(s2, gfx);
    s3 := Execute(ram, s2);
    CommandAt(ram, before, gfx, view, proj, s3, 3);
    CommandWords(s3, gfx);
  }

  /** The n-th command is read from memory as it was written. */
  lemma CommandAt(ram: seq<Word>, before: seq<Word>, gfx: nat, view: seq<Word>, proj: seq<Word>, s: Renderer, n: nat)
    requires Emitted(ram, before, gfx, view, proj) && n < 4 && s.pc == gfx + 8 * n
    ensures InRam(ram, s.pc, 2) && |Commands(gfx)| == 8
    ensures Execute(ram, s) == ExecuteWords(s, Commands(gfx)[2 * n], Commands(gfx)[2 * n + 1])
  {
    hide Commands, ExecuteWords;
    assert Ix(s.pc) == Ix(gfx) + 2 * n;
    assert ram[Ix(gfx) + 2 * n] == Bits(Commands(gfx)[2 * n]);
    assert ram[Ix(gfx) + (2 * n + 1)] == Bits(Commands(gfx)[2 * n + 1]);
  }

  // ---------------------------------------------------------------- latch and emit

  class Camera {
    const floatOf: nat -> real
    const view: array<Word>         // camera_view
    const proj: array<Word>         // camera_proj
    var valid: bool                 // camera_valid

    constructor (floatOf: nat -> real)
      ensures !valid && view.Length == proj.Length == 16 && view != proj && fresh(view) && fresh(proj)
      ensures this.floatOf == floatOf
    {
      this.floatOf := floatOf;
      var v := new Word[16](i => Bits(0));
      var p := new Word[16](i => Bits(0));
      view, proj, valid := v, p, false;
    }

    ghost predicate Arrays() {
      view.Length == proj.Length == 16 && view != proj
    }

    /** wcw_rt_latch_camera. */
    method Latch(ram: seq<Word>, projAt: nat, viewAt: nat)
      requires Arrays() && InRam(ram, projAt, 16) && InRam(ram, viewAt, 16)
      modifies this, view, proj
      ensures valid && proj[..] == ram[Ix(projAt)..Ix(projAt) + 16] && view[..] == ram[Ix(viewAt)..Ix(viewAt) + 16]
    {
      for i := 0 to 16
        invariant proj[..i] == ram[Ix(projAt)..Ix(projAt) + i] && view[..i] == ram[Ix(viewAt)..Ix(viewAt) + i]
      {
        proj[i] := ram[Ix(projAt + i * 4)];
        view[i] := ram[Ix(viewAt + i * 4)];
      }
      valid := true;
    }

    /** wcw_rt_latch_camera_multiply: only the product that is the camera matrix counts. */
    method LatchMultiply(ram: seq<Word>, viewAt: nat, projAt: nat, dest: nat)
      requires Arrays() && InRam(ram, projAt, 16) && InRam(ram, viewAt, 16)
      modifies this, view, proj
      ensures dest == CAMERA_MATRIX ==>
                valid && proj[..] == ram[Ix(projAt)..Ix(projAt) + 16] && view[..] == ram[Ix(viewAt)..Ix(viewAt) + 16]
      ensures dest != CAMERA_MATRIX ==> valid == old(valid) && proj[..] == old(proj[..]) && view[..] == old(view[..])
    {
      if dest == CAMERA_MATRIX {
        Latch(ram, projAt, viewAt);
      }
    }

    /** The elimination inverts the latched projection; what that says of the matrix is PivotsIff. */
    ghost predicate Invertible()
      requires Arrays()
      reads proj
    {
      PivotsFrom(Loaded(Floats(floatOf, proj[..])), 0)
    }

    /** The view matrix to send: the camera matrix times the inverse of the latched projection if the elimination
        finds one, else the latched view. */
    method DeriveView(ram: seq<Word>) returns (words: seq<Word>, derived: bool)
      requires Arrays() && InRam(ram, CAMERA_MATRIX, 16)
      ensures |words| == 16 && (derived <==> Invertible()) && (!derived ==> words == view[..])
      ensures derived ==>
                IsProduct(MatrixAt(floatOf, ram, CAMERA_MATRIX), Floats(floatOf, words), Floats(floatOf, proj[..]))
    {
      hide LeftInverse, PivotsFrom, Loaded, IsProduct;
      var p := Floats(floatOf, proj[..]);
      var c := MatrixAt(floatOf, ram, CAMERA_MATRIX);
      var inverse := new real[16];
      derived := Invert4(p, inverse);
      if derived {
        words := Multiply(c, inverse[..]);
        ProductIsUndone(Floats(floatOf, words), c, inverse[..], p);
      } else {
        words := view[..];
      }
    }

    method Multiply(c: seq<real>, q: seq<real>) returns (words: seq<Word>)
      requires Matrix(c) && Matrix(q)
      ensures |words| == 16 && IsProduct(Floats(floatOf, words), c, q)
    {
      var out := new Word[16](i => Bits(0));
      for r := 0 to 4
        invariant forall i :: 0 <= i < r * 4 ==> out[i] == Flt(ProductAt(c, q, i / 4, i % 4))
      {
        for k := 0 to 4
          invariant forall i :: 0 <= i < r * 4 + k ==> out[i] == Flt(ProductAt(c, q, i / 4, i % 4))
        {
          var sum := 0.0;
          for j := 0 to 4
            invariant sum == PartialProduct(c, q, r, k, j)
          {
            sum := sum + c[r * 4 + j] * q[j * 4 + k];
          }
          out[r * 4 + k] := Flt(sum);
          assert (r * 4 + k) / 4 == r && (r * 4 + k) % 4 == k;
        }
      }
      words := out[..];
      forall r, k | 0 <= r < 4 && 0 <= k < 4 ensures Floats(floatOf, words)[r * 4 + k] == ProductAt(c, q, r, k) {
        assert (r * 4 + k) / 4 == r && (r * 4 + k) % 4 == k;
      }
    }

    /** wcw_rt_emit_camera: without a latched camera nothing happens, else 160 bytes are written at gfx and the
        list goes on behind them. */
    method Emit(rdram: array<Word>, gfx: nat) returns (head: nat, derived: bool)
      requires Arrays() && rdram != view && rdram != proj && InRam(rdram[..], gfx, 40)
      requires InRam(rdram[..], CAMERA_MATRIX, 16)
      modifies rdram
      ensures !valid ==> head == gfx && rdram[..] == old(rdram[..]) && !derived
      ensures valid ==> head == gfx + 160
      ensures valid ==>
                exists v: seq<Word> ::
                  Emitted(rdram[..], old(rdram[..]), gfx, v, proj[..]) && (!derived ==> v == view[..])
      ensures InRam(rdram[..], gfx + 32, 16) && InRam(rdram[..], gfx + 96, 16)
      ensures derived ==>
                IsProduct(old(MatrixAt(floatOf, rdram[..], CAMERA_MATRIX)), MatrixAt(floatOf, rdram[..], gfx + 32),
                  MatrixAt(floatOf, rdram[..], gfx + 96))
      ensures derived <==> valid && Invertible()
    {
      derived := false;
      assert Ix(gfx + 32) == Ix(gfx) + 8 && Ix(gfx + 96) == Ix(gfx) + 24;
      if !valid {
        return gfx, derived;
      }
      head := gfx + 160;
      var words;
      words, derived := DeriveView(rdram[..]);
      WriteMatrices(rdram, gfx, words);
      WriteCommands(rdram, gfx);
      assert Emitted(rdram[..], old(rdram[..]), gfx, words, proj[..]);
      EmittedMatrices(floatOf, rdram[..], old(rdram[..]), gfx, words, proj[..]);
    }

    method WriteMatrices(rdram: array<Word>, gfx: nat, words: seq<Word>)
      requires Arrays() && rdram != view && rdram != proj && InRam(rdram[..], gfx, 40) && |words| == 16
      modifies rdram
      ensures forall i :: 0 <= i < 16 ==> rdram[Ix(gfx) + 8 + i] == words[i] && rdram[Ix(gfx) + 24 + i] == proj[i]
      ensures forall i :: 0 <= i < rdram.Length && !(Ix(gfx) + 8 <= i < Ix(gfx) + 40) ==> rdram[i] == old(rdram[i])
    {
      ghost var g := Ix(gfx);
      for i := 0 to 16
        invariant forall k :: g + 8 <= k < g + 8 + i ==> rdram[k] == words[k - g - 8]
        invariant forall k :: g + 24 <= k < g + 24 + i ==> rdram[k] == proj[k - g - 24]
        invariant forall k :: 0 <= k < rdram.Length && !(g + 8 <= k < g + 40) ==> rdram[k] == old(rdram[k])
      {
        assert Ix(gfx + 32 + i * 4) == g + 8 + i && Ix(gfx + 96 + i * 4) == g + 24 + i;
        rdram[Ix(gfx + 32 + i * 4)] := words[i];
        rdram[Ix(gfx + 96 + i * 4)] := proj[i];
      }
    }

    method WriteCommands(rdram: array<Word>, gfx: nat)
      requires InRam(rdram[..], gfx, 40)
      modifies rdram
      ensures forall i :: 0 <= i < 8 ==> rdram[Ix(gfx) + i] == Bits(Commands(gfx)[i])
      ensures forall i :: 0 <= i < rdram.Length && !(Ix(gfx) <= i < Ix(gfx) + 8) ==> rdram[i] == old(rdram[i])
    {
      var g := Ix(gfx);
      rdram[g] := Bits(HOOK_OPCODE * 0x100_0000 + HOOK_MAGIC);
      rdram[g + 1] := Bits(HOOK_OP_ENABLE * 0x1000_0000 + EXTENDED_OPCODE);
      rdram[g + 2] := Bits(EXTENDED_OPCODE * 0x100_0000 + SET_VIEW);
      rdram[g + 3] := Bits(gfx + 32);
      rdram[g + 4] := Bits(EXTENDED_OPCODE * 0x100_0000 + SET_PROJ);
      rdram[g + 5] := Bits(gfx + 96);
      rdram[g + 6] := Bits(G_DL * 0x100_0000 + NOPUSH * 0x1_0000);
      rdram[g + 7] := Bits(gfx + 160);
    }
  }

  function PartialProduct(c: seq<real>, q: seq<real>, r: nat, k: nat, j: nat): (sum: real)
    requires Matrix(c) && Matrix(q) && r < 4 && k < 4 && j <= 4
    ensures j == 4 ==> sum == ProductAt(c, q, r, k)
  {
    (if j > 0 then c[r * 4] * q[k] else 0.0) + (if j > 1 then c[r * 4 + 1] * q[4 + k] else 0.0)
    + (if j > 2 then c[r * 4 + 2] * q[8 + k] else 0.0) + (if j > 3 then c[r * 4 + 3] * q[12 + k] else 0.0)
  }

  lemma EmittedMatrices(floatOf: nat -> real, ram: seq<Word>, before: seq<Word>, gfx: nat, view: seq<Word>,
          proj: seq<Word>)
    requires Emitted(ram, before, gfx, view, proj)
    ensures InRam(ram, gfx + 32, 16) && MatrixAt(floatOf, ram, gfx + 32) == Floats(floatOf, view)
    ensures InRam(ram, gfx + 96, 16) && MatrixAt(floatOf, ram, gfx + 96) == Floats(floatOf, proj)
  {
    assert Ix(gfx + 32) == Ix(gfx) + 8 && Ix(gfx + 96) == Ix(gfx) + 24;
  }
}
