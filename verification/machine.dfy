/**
 The CPU state of the interpreter and its lifecycle and accessor operations: reset with the
 font table, ROM loading, big-endian 16-bit memory access, the framebuffer and the keypad.
 */
module Machine {
  import opened Bits
  import opened Optional
  import opened Opcodes
  import opened Trie

  const RamSize := 0x1000
  const RegisterCount := 16
  const StackDepth := 16
  const ScreenWidth := 128
  const ScreenHeight := 64

  type Ram = s: seq<byte> | |s| == RamSize witness seq(RamSize, _ => 0)
  type Registers = s: seq<byte> | |s| == RegisterCount witness seq(RegisterCount, _ => 0)
  type Stack = s: seq<u16> | |s| == StackDepth witness seq(StackDepth, _ => 0)
  /** Always sized for the high-resolution mode, whatever the current mode. */
  type Framebuffer = s: seq<bool> | |s| == ScreenWidth * ScreenHeight witness seq(ScreenWidth * ScreenHeight, _ => false)
  type Keypad = s: seq<bool> | |s| == 16 witness seq(16, _ => false)

  /** lores_c8 is CHIP-8's 64x32, hires_sc8 SCHIP-8's 128x64. */
  datatype ScreenMode = LoRes | HiRes

  datatype Cpu = Cpu(
    ram: Ram,
    v: Registers,        // V0..VF
    i: u16,
    pc: u16,
    sp: byte,
    dt: byte,
    st: byte,
    stack: Stack,
    screen: Framebuffer,
    mode: ScreenMode,
    keys: Keypad,
    lastKey: Option<byte>,
    ops: Trie<Op>)

  /** The sixteen 5-byte digit glyphs, 0 to F. */
  const Glyphs: seq<seq<byte>> := [
    [0xF0, 0x90, 0x90, 0x90, 0xF0], [0x20, 0x60, 0x20, 0x20, 0x70],
    [0xF0, 0x10, 0xF0, 0x80, 0xF0], [0xF0, 0x10, 0xF0, 0x10, 0xF0],
    [0x90, 0x90, 0xF0, 0x10, 0x10], [0xF0, 0x80, 0xF0, 0x10, 0xF0],
    [0xF0, 0x80, 0xF0, 0x90, 0xF0], [0xF0, 0x10, 0x20, 0x40, 0x40],
    [0xF0, 0x90, 0xF0, 0x90, 0xF0], [0xF0, 0x90, 0xF0, 0x10, 0xF0],
    [0xF0, 0x90, 0xF0, 0x90, 0x90], [0xE0, 0x90, 0xE0, 0x90, 0xE0],
    [0xF0, 0x80, 0x80, 0x80, 0xF0], [0xE0, 0x90, 0x90, 0x90, 0xE0],
    [0xF0, 0x80, 0xF0, 0x80, 0xF0], [0xF0, 0x80, 0xF0, 0x80, 0x80]]

  /** The glyphs laid out one after another, as the reset loop copies them. */
  function Flatten(gs: seq<seq<byte>>): seq<byte>
  {
    if |gs| == 0 then [] else Flatten(gs[..|gs| - 1]) + gs[|gs| - 1]
  }

  /** Byte j of glyph g lands at offset 5g + j. */
  lemma {:induction false} FlattenAt(gs: seq<seq<byte>>, g: nat, j: nat)
    requires forall k :: 0 <= k < |gs| ==> |gs[k]| == 5
    requires g < |gs| && j < 5
    ensures |Flatten(gs)| == 5 * |gs|
    ensures Flatten(gs)[5 * g + j] == gs[g][j]
  {
    var n := |gs| - 1;
    FlattenLength(gs[..n]);
    if g < n {
      FlattenAt(gs[..n], g, j);
    }
  }

  lemma {:induction false} FlattenLength(gs: seq<seq<byte>>)
    requires forall k :: 0 <= k < |gs| ==> |gs[k]| == 5
    ensures |Flatten(gs)| == 5 * |gs|
  {
    if |gs| > 0 {
      FlattenLength(gs[..|gs| - 1]);
    }
  }

  /** The font as it sits at the bottom of memory: 80 bytes. */
  function Font(): (f: seq<byte>)
    ensures |f| == 80
    ensures forall g, j :: 0 <= g < 16 && 0 <= j < 5 ==> f[5 * g + j] == Glyphs[g][j]
  {
    FlattenLength(Glyphs);
    forall g, j | 0 <= g < 16 && 0 <= j < 5
      ensures Flatten(Glyphs)[5 * g + j] == Glyphs[g][j]
    {
      FlattenAt(Glyphs, g, j);
    }
    Flatten(Glyphs)
  }

  /**
   reset (current tree): registers, timers and keys cleared, PC at 0x200, stack zeroed, memory
   zeroed except the font in [0, 80). SP, I, the framebuffer, the screen mode and the last key
   are left as they were.
   */
  function Reset(c: Cpu): (r: Cpu)
    ensures r.pc == 0x200 && r.dt == 0 && r.st == 0
    ensures forall k :: 0 <= k < RegisterCount ==> r.v[k] == 0
    ensures forall k :: 0 <= k < StackDepth ==> r.stack[k] == 0
    ensures forall k :: 0 <= k < 16 ==> !r.keys[k]
    ensures forall g, j :: 0 <= g < 16 && 0 <= j < 5 ==> r.ram[5 * g + j] == Glyphs[g][j]
    ensures forall a :: 80 <= a < RamSize ==> r.ram[a] == 0
    ensures r.sp == c.sp && r.i == c.i && r.screen == c.screen && r.mode == c.mode
    ensures r.lastKey == c.lastKey && r.ops == c.ops
  {
    var zeros: seq<byte> := seq(RamSize - 80, _ => 0);
    c.(ram := Font() + zeros,
       v := seq(RegisterCount, _ => 0),
       pc := 0x200,
       stack := seq(StackDepth, _ => 0),
       dt := 0,
       st := 0,
       keys := seq(16, _ => false))
  }

  /** Resetting twice is resetting once. */
  lemma ResetIdempotent(c: Cpu)
    ensures Reset(Reset(c)) == Reset(c)
  {
  }

  datatype Loaded = Loaded(cpu: Cpu, ok: bool)

  /**
   load_rom: accepted exactly when the image is shorter than 0xE00 bytes and ends below 0x1000;
   then it is copied to [addr, addr + |rom|) and nothing else changes. A refused image changes
   nothing.
   */
  function LoadRom(c: Cpu, rom: seq<byte>, addr: u16): (r: Loaded)
    ensures r.ok <==> |rom| < 0xE00 && addr + |rom| < RamSize
    ensures !r.ok ==> r.cpu == c
    ensures r.ok ==> forall k :: 0 <= k < |rom| ==> r.cpu.ram[addr + k] == rom[k]
    ensures forall a :: 0 <= a < RamSize && !(addr <= a < addr + |rom|) ==> r.cpu.ram[a] == c.ram[a]
    ensures r.cpu == c.(ram := r.cpu.ram)
  {
    if |rom| < 0xE00 && addr + |rom| < RamSize then
      Loaded(c.(ram := c.ram[..addr] + rom + c.ram[addr + |rom|..]), true)
    else
      Loaded(c, false)
  }

  /** read_u16: the big-endian word at addr. */
  function ReadU16(c: Cpu, addr: u16): (w: u16)
    requires addr + 1 < RamSize
    ensures w / 0x100 == c.ram[addr] && w % 0x100 == c.ram[addr + 1]
  {
    c.ram[addr] as int * 0x100 + c.ram[addr + 1]
  }

  /** set_u16: store val big-endian at addr. */
  function SetU16(c: Cpu, addr: u16, val: u16): (r: Cpu)
    requires addr + 1 < RamSize
    ensures ReadU16(r, addr) == val
    ensures forall a :: 0 <= a < RamSize && a != addr && a != addr + 1 ==> r.ram[a] == c.ram[a]
    ensures r == c.(ram := r.ram)
  {
    c.(ram := c.ram[addr := val / 0x100][addr + 1 := val % 0x100])
  }

  /** Storing the word already there changes nothing. */
  lemma SetReadU16(c: Cpu, addr: u16)
    requires addr + 1 < RamSize
    ensures SetU16(c, addr, ReadU16(c, addr)) == c
  {
    var r := SetU16(c, addr, ReadU16(c, addr));
    assert r.ram == c.ram;
  }

  /** Row length of the framebuffer in the given mode. */
  function Width(mode: ScreenMode): nat
  {
    if mode == HiRes then 128 else 64
  }

  /** Row-major index of pixel (x, y): width * y + x. */
  function PixelIndex(mode: ScreenMode, x: byte, y: byte): nat
  {
    Width(mode) * y + x
  }

  /** Within a row the index is a bijection: x and y come back by division by the width. */
  lemma PixelIndexInverse(mode: ScreenMode, x: byte, y: byte)
    requires x < Width(mode)
    ensures PixelIndex(mode, x, y) % Width(mode) == x
    ensures PixelIndex(mode, x, y) / Width(mode) == y
  {
  }

  function GetScreenXY(c: Cpu, x: byte, y: byte): bool
    requires PixelIndex(c.mode, x, y) < ScreenWidth * ScreenHeight
  {
    c.screen[PixelIndex(c.mode, x, y)]
  }

  /** set_screen_xy: afterwards the pixel reads back as set, and no other cell changes. */
  function SetScreenXY(c: Cpu, x: byte, y: byte, on: bool): (r: Cpu)
    requires PixelIndex(c.mode, x, y) < ScreenWidth * ScreenHeight
    ensures r == c.(screen := r.screen)
    ensures GetScreenXY(r, x, y) == on
    ensures forall k :: 0 <= k < ScreenWidth * ScreenHeight && k != PixelIndex(c.mode, x, y) ==>
              r.screen[k] == c.screen[k]
  {
    c.(screen := c.screen[PixelIndex(c.mode, x, y) := on])
  }

  /** Setting one pixel leaves every pixel at a different index readable as before. */
  lemma SetScreenOthers(c: Cpu, x: byte, y: byte, on: bool, x': byte, y': byte)
    requires PixelIndex(c.mode, x, y) < ScreenWidth * ScreenHeight
    requires PixelIndex(c.mode, x', y') < ScreenWidth * ScreenHeight
    requires PixelIndex(c.mode, x, y) != PixelIndex(c.mode, x', y')
    ensures GetScreenXY(SetScreenXY(c, x, y, on), x', y') == GetScreenXY(c, x', y')
  {
  }

  /** set_key_down: the key is down and becomes the last key; `.at` refuses keys past 15. */
  function SetKeyDown(c: Cpu, key: byte): (r: Cpu)
    requires key < 16
    ensures r.keys[key] && r.lastKey == Some(key)
    ensures forall k :: 0 <= k < 16 && k != key ==> r.keys[k] == c.keys[k]
    ensures r == c.(keys := r.keys, lastKey := r.lastKey)
  {
    c.(keys := c.keys[key := true], lastKey := Some(key))
  }

  /** set_key_up: the key is up; the last key is forgotten only if it was this one. */
  function SetKeyUp(c: Cpu, key: byte): (r: Cpu)
    requires key < 16
    ensures !r.keys[key]
    ensures r.lastKey == None <==> c.lastKey == None || c.lastKey == Some(key)
    ensures r.lastKey != None ==> r.lastKey == c.lastKey
    ensures forall k :: 0 <= k < 16 && k != key ==> r.keys[k] == c.keys[k]
    ensures r == c.(keys := r.keys, lastKey := r.lastKey)
  {
    c.(keys := c.keys[key := false], lastKey := if c.lastKey == Some(key) then None else c.lastKey)
  }

  /** Pressing and releasing a key that was up restores the keypad and clears the last key. */
  lemma KeyDownThenUp(c: Cpu, key: byte)
    requires key < 16 && !c.keys[key]
    ensures SetKeyUp(SetKeyDown(c, key), key) == c.(lastKey := None)
  {
    assert SetKeyUp(SetKeyDown(c, key), key).keys == c.keys;
  }
}
