/** Key codes and flags of include/keyboard.h, and the keymap of include/keymap.h. */
module KeyCodes {
  const FLAG_BREAK: bv8 := 0x80

  const FLAG_EXT: bv32 := 0x0100
  const FLAG_SHIFT_L: bv32 := 0x0200
  const FLAG_SHIFT_R: bv32 := 0x0400
  const FLAG_CTRL_L: bv32 := 0x0800
  const FLAG_CTRL_R: bv32 := 0x1000
  const FLAG_ALT_L: bv32 := 0x2000
  const FLAG_ALT_R: bv32 := 0x4000
  const FLAG_PAD: bv32 := 0x8000
  const MASK_RAW: bv32 := 0x01FF

  const ESC: bv32 := 0x101
  const TAB: bv32 := 0x102
  const ENTER: bv32 := 0x103
  const BACKSPACE: bv32 := 0x104
  const GUI_L: bv32 := 0x105
  const GUI_R: bv32 := 0x106
  const APPS: bv32 := 0x107
  const SHIFT_L: bv32 := 0x108
  const SHIFT_R: bv32 := 0x109
  const CTRL_L: bv32 := 0x10A
  const CTRL_R: bv32 := 0x10B
  const ALT_L: bv32 := 0x10C
  const ALT_R: bv32 := 0x10D
  const CAPS_LOCK: bv32 := 0x10E
  const NUM_LOCK: bv32 := 0x10F
  const SCROLL_LOCK: bv32 := 0x110
  const F1: bv32 := 0x111
  const F2: bv32 := 0x112
  const F3: bv32 := 0x113
  const F4: bv32 := 0x114
  const F5: bv32 := 0x115
  const F6: bv32 := 0x116
  const F7: bv32 := 0x117
  const F8: bv32 := 0x118
  const F9: bv32 := 0x119
  const F10: bv32 := 0x11A
  const F11: bv32 := 0x11B
  const F12: bv32 := 0x11C
  const INSERT: bv32 := 0x11F
  const DELETE: bv32 := 0x120
  const HOME: bv32 := 0x121
  const END: bv32 := 0x122
  const PAGEUP: bv32 := 0x123
  const PAGEDOWN: bv32 := 0x124
  const UP: bv32 := 0x125
  const DOWN: bv32 := 0x126
  const LEFT: bv32 := 0x127
  const RIGHT: bv32 := 0x128
  const PAD_SLASH: bv32 := 0x12C
  const PAD_STAR: bv32 := 0x12D
  const PAD_MINUS: bv32 := 0x12E
  const PAD_PLUS: bv32 := 0x12F
  const PAD_ENTER: bv32 := 0x130
  const PAD_DOT: bv32 := 0x131
  const PAD_0: bv32 := 0x132
  const PAD_1: bv32 := 0x133
  const PAD_2: bv32 := 0x134
  const PAD_3: bv32 := 0x135
  const PAD_4: bv32 := 0x136
  const PAD_5: bv32 := 0x137
  const PAD_6: bv32 := 0x138
  const PAD_7: bv32 := 0x139
  const PAD_8: bv32 := 0x13A
  const PAD_9: bv32 := 0x13B

  /**
   A row of the keymap: without shift, with shift, and behind an E0 prefix. Printable keys are
   given as their ASCII codes; keys that the map leaves out are 0.
   */
  type Keys = (bv32, bv32, bv32)

  function Rows00To0F(code: bv8): Keys {
    match code
    case 0x01 => (ESC, ESC, 0)
    case 0x02 => (0x31, 0x21, 0)
    case 0x03 => (0x32, 0x40, 0)
    case 0x04 => (0x33, 0x23, 0)
    case 0x05 => (0x34, 0x24, 0)
    case 0x06 => (0x35, 0x25, 0)
    case 0x07 => (0x36, 0x5E, 0)
    case 0x08 => (0x37, 0x26, 0)
    case 0x09 => (0x38, 0x2A, 0)
    case 0x0A => (0x39, 0x28, 0)
    case 0x0B => (0x30, 0x29, 0)
    case 0x0C => (0x2D, 0x5F, 0)
    case 0x0D => (0x3D, 0x2B, 0)
    case 0x0E => (BACKSPACE, BACKSPACE, 0)
    case 0x0F => (TAB, TAB, 0)
    case _ => (0, 0, 0)
  }

  function Rows10To1F(code: bv8): Keys {
    match code
    case 0x10 => (0x71, 0x51, 0)
    case 0x11 => (0x77, 0x57, 0)
    case 0x12 => (0x65, 0x45, 0)
    case 0x13 => (0x72, 0x52, 0)
    case 0x14 => (0x74, 0x54, 0)
    case 0x15 => (0x79, 0x59, 0)
    case 0x16 => (0x75, 0x55, 0)
    case 0x17 => (0x69, 0x49, 0)
    case 0x18 => (0x6F, 0x4F, 0)
    case 0x19 => (0x70, 0x50, 0)
    case 0x1A => (0x5B, 0x7B, 0)
    case 0x1B => (0x5D, 0x7D, 0)
    case 0x1C => (ENTER, ENTER, PAD_ENTER)
    case 0x1D => (CTRL_L, CTRL_L, CTRL_R)
    case 0x1E => (0x61, 0x41, 0)
    case 0x1F => (0x73, 0x53, 0)
    case _ => (0, 0, 0)
  }

  function Rows20To2F(code: bv8): Keys {
    match code
    case 0x20 => (0x64, 0x44, 0)
    case 0x21 => (0x66, 0x46, 0)
    case 0x22 => (0x67, 0x47, 0)
    case 0x23 => (0x68, 0x48, 0)
    case 0x24 => (0x6A, 0x4A, 0)
    case 0x25 => (0x6B, 0x4B, 0)
    case 0x26 => (0x6C, 0x4C, 0)
    case 0x27 => (0x3B, 0x3A, 0)
    case 0x28 => (0x27, 0x22, 0)
    case 0x29 => (0x60, 0x7E, 0)
    case 0x2A => (SHIFT_L, SHIFT_L, 0)
    case 0x2B => (0x5C, 0x7C, 0)
    case 0x2C => (0x7A, 0x5A, 0)
    case 0x2D => (0x78, 0x58, 0)
    case 0x2E => (0x63, 0x43, 0)
    case 0x2F => (0x76, 0x56, 0)
    case _ => (0, 0, 0)
  }

  function Rows30To3F(code: bv8): Keys {
    match code
    case 0x30 => (0x62, 0x42, 0)
    case 0x31 => (0x6E, 0x4E, 0)
    case 0x32 => (0x6D, 0x4D, 0)
    case 0x33 => (0x2C, 0x3C, 0)
    case 0x34 => (0x2E, 0x3E, 0)
    case 0x35 => (0x2F, 0x3F, PAD_SLASH)
    case 0x36 => (SHIFT_R, SHIFT_R, 0)
    case 0x37 => (0x2A, 0x2A, 0)
    case 0x38 => (ALT_L, ALT_L, ALT_R)
    case 0x39 => (0x20, 0x20, 0)
    case 0x3A => (CAPS_LOCK, CAPS_LOCK, 0)
    case 0x3B => (F1, F1, 0)
    case 0x3C => (F2, F2, 0)
    case 0x3D => (F3, F3, 0)
    case 0x3E => (F4, F4, 0)
    case 0x3F => (F5, F5, 0)
    case _ => (0, 0, 0)
  }

  function Rows40To7F(code: bv8): Keys {
    match code
    case 0x40 => (F6, F6, 0)
    case 0x41 => (F7, F7, 0)
    case 0x42 => (F8, F8, 0)
    case 0x43 => (F9, F9, 0)
    case 0x44 => (F10, F10, 0)
    case 0x45 => (NUM_LOCK, NUM_LOCK, 0)
    case 0x46 => (SCROLL_LOCK, SCROLL_LOCK, 0)
    case 0x47 => (PAD_7, 0x37, HOME)
    case 0x48 => (PAD_8, 0x38, UP)
    case 0x49 => (PAD_9, 0x39, PAGEUP)
    case 0x4A => (PAD_MINUS, 0x2D, 0)
    case 0x4B => (PAD_4, 0x34, LEFT)
    case 0x4C => (PAD_5, 0x35, 0)
    case 0x4D => (PAD_6, 0x36, RIGHT)
    case 0x4E => (PAD_PLUS, 0x2B, 0)
    case 0x4F => (PAD_1, 0x31, END)
    case 0x50 => (PAD_2, 0x32, DOWN)
    case 0x51 => (PAD_3, 0x33, PAGEDOWN)
    case 0x52 => (PAD_0, 0x30, INSERT)
    case 0x53 => (PAD_DOT, 0x2E, DELETE)
    case 0x57 => (F11, F11, 0)
    case 0x58 => (F12, F12, 0)
    case 0x5B => (0, 0, GUI_L)
    case 0x5C => (0, 0, GUI_R)
    case 0x5D => (0, 0, APPS)
    case _ => (0, 0, 0)
  }

  function Row(code: bv8): Keys {
    if code < 0x10 then Rows00To0F(code)
    else if code < 0x20 then Rows10To1F(code)
    else if code < 0x30 then Rows20To2F(code)
    else if code < 0x40 then Rows30To3F(code)
    else Rows40To7F(code)
  }

  datatype Column = Unshifted | Shifted | Prefixed

  function Keymap(code: bv8, column: Column): bv32 {
    match column
    case Unshifted => Row(code).0
    case Shifted => Row(code).1
    case Prefixed => Row(code).2
  }
}
