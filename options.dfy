/** code/util/Option.py: one entry of the options menu (class Option,
    here MenuOption, since Option is the name of the optional-value type).
    Modelled: the event loop of Option.update with its bool toggle, the
    numeric typing rules of float and int options, the keybind slot
    update and the menu flags. Keys are identified by pygame.key.name:
    "backspace", "return" and "escape" are the keys K_BACKSPACE, K_RETURN
    and K_ESCAPE. The value the option writes into the settings parser is
    `saved`. */
module Options {
  import opened PyCore

  /** The option types: 'bool', 'float', 'int', 'colour', 'keybind' and
      'header'. */
  datatype Kind = BoolKind | FloatKind | IntKind | ColourKind | KeybindKind | HeaderKind

  /** A value set into the settings parser: int(...), float(...), or the
      boolean read back by getboolean. */
  datatype ConfigValue = IntValue(i: int) | FloatValue(r: real) | BoolValue(b: bool)

  /** configparser's getint on the entry once the settings file has been
      written and read back, that is int() of str(value). str of a float
      always holds '.', 'e', 'inf' or 'nan' and str of a bool is 'True' or
      'False', so only an int reads back. */
  function GetInt(v: ConfigValue): (r: Result<int>)
    ensures r.Ok? <==> v.IntValue?
    ensures r.Ok? ==> r.value == v.i
  {
    match v
    case IntValue(i) => Ok(i)
    case FloatValue(_) => Err(ValueError)
    case BoolValue(_) => Err(ValueError)
  }

  // ---------------------------------------------------------------------
  // int() and float() on the strings typing builds
  // ---------------------------------------------------------------------

  predicate IsDigit(c: char) {
    '0' <= c <= '9'
  }

  predicate AllDigits(s: string) {
    forall i :: 0 <= i < |s| ==> IsDigit(s[i])
  }

  /** The number a run of decimal digits denotes. */
  function DigitsValue(s: string): nat
    requires AllDigits(s)
  {
    if s == [] then 0 else 10 * DigitsValue(s[..|s| - 1]) + (s[|s| - 1] as int - '0' as int)
  }

  function Pow10(n: nat): (r: nat)
    ensures r >= 1
  {
    if n == 0 then 1 else 10 * Pow10(n - 1)
  }

  /** The sign and the rest of a string that may start with '-'. */
  function Unsigned(s: string): string {
    if |s| > 0 && s[0] == '-' then s[1..] else s
  }

  function Signed(s: string, x: real): real {
    if |s| > 0 && s[0] == '-' then -x else x
  }

  /** int(s) for strings of digits, '-' and '.' (the only characters
      typing produces): an optional '-' and at least one digit. */
  function ParseInt(s: string): (r: Result<int>)
    ensures r.Err? ==> r.error == ValueError
  {
    var body := Unsigned(s);
    if |body| > 0 && AllDigits(body) then
      Ok(if |s| > 0 && s[0] == '-' then -(DigitsValue(body) as int) else DigitsValue(body))
    else Err(ValueError)
  }

  /** float(s) for strings of digits, '-' and '.': an optional '-', digits
      with at most one '.', and at least one digit. */
  function ParseFloat(s: string): (r: Result<real>)
    ensures r.Err? ==> r.error == ValueError
  {
    var body := Unsigned(s);
    match Find(body, ".")
    case None =>
      if |body| > 0 && AllDigits(body) then Ok(Signed(s, DigitsValue(body) as real)) else Err(ValueError)
    case Some(k) =>
      var whole := body[..k];
      var frac := body[k + 1..];
      if AllDigits(whole) && AllDigits(frac) && |whole| + |frac| > 0 then
        Ok(Signed(s, DigitsValue(whole) as real + DigitsValue(frac) as real / Pow10(|frac|) as real))
      else Err(ValueError)
  }

  /** str(n) for an int. */
  function ShowInt(n: int): (s: string) {
    if n < 0 then "-" + ShowNat(-n) else ShowNat(n)
  }

  function ShowNat(n: nat): (s: string)
    ensures |s| > 0 && AllDigits(s)
  {
    if n < 10 then [('0' as int + n) as char]
    else ShowNat(n / 10) + [('0' as int + n % 10) as char]
  }

  lemma {:induction false} ShowNatValue(n: nat)
    ensures DigitsValue(ShowNat(n)) == n
  {
    if n >= 10 {
      var s := ShowNat(n);
      assert s[..|s| - 1] == ShowNat(n / 10);
      ShowNatValue(n / 10);
    }
  }

  /** int(str(n)) == n: an int setting shown in its box reads back as
      itself. */
  lemma ParseShowInt(n: int)
    ensures ParseInt(ShowInt(n)) == Ok(n)
  {
    if n < 0 {
      ShowNatValue(-n);
      assert Unsigned(ShowInt(n)) == ShowNat(-n);
    } else {
      ShowNatValue(n);
      assert ShowNat(n)[0] != '-';
    }
  }

  /** Typing digit d after a non-negative int buffer s gives 10 * s + d, and
      after a negative one -(10 * |s| + d). */
  lemma AppendDigitValue(s: string, d: char)
    requires IsDigit(d) && ParseInt(s).Ok?
    ensures var v := ParseInt(s).value;
      ParseInt(s + [d]) == Ok(if v < 0 || (|s| > 0 && s[0] == '-') then 10 * v - (d as int - '0' as int)
                              else 10 * v + (d as int - '0' as int))
  {
    var body := Unsigned(s);
    assert Unsigned(s + [d]) == body + [d];
    assert (body + [d])[..|body + [d]| - 1] == body;
  }

  // ---------------------------------------------------------------------
  // The numeric typing rules
  // ---------------------------------------------------------------------

  /** The keys a numeric option reacts to: '1234567890-', and '.' too for
      a float option. A key counts when its name is a substring of these
      (`in` on strings). */
  function LegalChars(kind: Kind): string {
    if kind == FloatKind then "1234567890-." else "1234567890-"
  }

  /** The '-' key: `new_var.replace('-', '')` when the buffer starts with
      '-', else '-' + new_var. */
  function ToggleMinus(s: string): string {
    if StartsWith(s, "-") then RemoveChar(s, '-') else "-" + s
  }

  /** A '-' nowhere but at the head. */
  predicate MinusOnlyLeading(s: string) {
    forall i :: 0 < i < |s| ==> s[i] != '-'
  }

  /** On such a buffer the '-' key is its own inverse. */
  lemma ToggleMinusTwice(s: string)
    requires MinusOnlyLeading(s)
    ensures MinusOnlyLeading(ToggleMinus(s))
    ensures ToggleMinus(ToggleMinus(s)) == s
  {
    if StartsWith(s, "-") {
      assert s == "-" + s[1..];
      assert '-' !in s[1..];
      assert RemoveChar(s, '-') == RemoveChar(s[1..], '-') == s[1..];
      assert !StartsWith(s[1..], "-");
    } else {
      var t := "-" + s;
      assert StartsWith(t, "-");
      assert '-' !in s by {
        if |s| > 0 { assert s[0] != '-'; }
      }
      assert t[1..] == s;
      assert RemoveChar(t, '-') == RemoveChar(s, '-') == s;
    }
  }

  /** The buffer with key `name` (one of LegalChars) typed: '-' toggles
      the sign when the option can be negative, '.' on an empty buffer
      gives '0.', and any other key is appended when the buffer with it
      parses (float or int by the option's type) within [min, max]; a
      buffer with it that does not parse raises ValueError. */
  function TypeLegal(kind: Kind, s: string, name: string, canBeNegative: bool, min: real, max: real)
    : (r: Result<string>)
    ensures r.Err? ==> r.error == ValueError
    ensures r.Ok? && r.value != s && name != "-" && !(name == "." && s == "") ==>
      r.value == s + name && (kind == FloatKind || kind == IntKind)
      && (kind == FloatKind ==> ParseFloat(r.value).Ok? && min <= ParseFloat(r.value).value <= max)
      && (kind == IntKind ==> ParseInt(r.value).Ok? && min <= ParseInt(r.value).value as real <= max)
  {
    if name == "-" then Ok(if canBeNegative then ToggleMinus(s) else s)
    else if name == "." && |s| == 0 then Ok("0.")
    else if kind == FloatKind then
      match ParseFloat(s + name)
      case Err(e) => Err(e)
      case Ok(v) => Ok(if max >= v >= min then s + name else s)
    else if kind == IntKind then
      match ParseInt(s + name)
      case Err(e) => Err(e)
      case Ok(v) => Ok(if max >= v as real >= min then s + name else s)
    else Ok(s)
  }

  /** Typing a digit appends it exactly when the longer buffer is a number
      within [min, max], and leaves the buffer alone when it is a number
      outside. */
  lemma TypeDigitInRange(kind: Kind, s: string, d: char, canBeNegative: bool, min: real, max: real)
    requires kind == IntKind && IsDigit(d) && ParseInt(s + [d]).Ok?
    ensures var v := ParseInt(s + [d]).value as real;
      && (TypeLegal(kind, s, [d], canBeNegative, min, max) == Ok(s + [d]) <==> min <= v <= max)
      && (TypeLegal(kind, s, [d], canBeNegative, min, max) == Ok(s) <==> !(min <= v <= max))
  {
    assert s + [d] != s;
  }

  /** A float buffer that already holds a '.' raises on a second one. */
  lemma SecondPointFails(s: string, canBeNegative: bool, min: real, max: real)
    requires '.' in s && |s| > 0
    ensures TypeLegal(FloatKind, s, ".", canBeNegative, min, max) == Err(ValueError)
  {
    var t := s + ".";
    var body := Unsigned(t);
    var off := if t[0] == '-' then 1 else 0;
    assert body == t[off..];
    var i :| 0 <= i < |s| && s[i] == '.';
    assert i != 0 || off == 0;
    assert body[i - off] == '.';
    FirstPointBeforeLast(body, i - off);
    var k := Find(body, ".").value;
    assert body[k + 1..][|body| - k - 2] == '.';
  }

  /** With a '.' at p before the last character, the first '.' comes
      before the last character. */
  lemma FirstPointBeforeLast(body: string, p: nat)
    requires p < |body| - 1 && body[p] == '.'
    ensures Find(body, ".").Some? && Find(body, ".").value < |body| - 1
  {
    assert body[p..p + 1] == ".";
    assert OccursAt(body, ".", p);
  }

  /** What a legal key stores: float(new_var) or int(new_var) by type,
      0 for '', '-' and '.'; nothing for the other types (None). */
  function SavedAfterLegal(kind: Kind, s: string): Result<Option<ConfigValue>> {
    if s != "" && s != "-" && s != "." then
      if kind == FloatKind then
        match ParseFloat(s)
        case Err(e) => Err(e)
        case Ok(v) => Ok(Some(FloatValue(v)))
      else if kind == IntKind then
        match ParseInt(s)
        case Err(e) => Err(e)
        case Ok(v) => Ok(Some(IntValue(v)))
      else Ok(None)
    else Ok(Some(IntValue(0)))
  }

  /** What backspace stores, as written: float(new_var) whatever the type,
      0 for '', '-' and '.'. */
  function SavedAfterBackspace(s: string): Result<ConfigValue> {
    if s != "" && s != "-" && s != "." then
      match ParseFloat(s)
      case Err(e) => Err(e)
      case Ok(v) => Ok(FloatValue(v))
    else Ok(IntValue(0))
  }

  /** What backspace evidently means to store: the buffer parsed as the
      option's type, as a legal key stores it. */
  function SavedAfterBackspaceFixed(kind: Kind, s: string): Result<ConfigValue>
    requires kind == FloatKind || kind == IntKind
  {
    match SavedAfterLegal(kind, s)
    case Err(e) => Err(e)
    case Ok(v) => Ok(v.value)
  }

  /** With the fix an int option edited by backspace reads back as the
      number in its box (0 for an empty box or a lone '-'). */
  lemma FixedBackspaceReadsBack(s: string)
    requires SavedAfterBackspaceFixed(IntKind, s).Ok?
    ensures GetInt(SavedAfterBackspaceFixed(IntKind, s).value)
         == (if s == "" || s == "-" || s == "." then Ok(0) else ParseInt(s))
  {
  }

  // ---------------------------------------------------------------------
  // One event of Option.update
  // ---------------------------------------------------------------------

  /** The status attribute, whose type follows the option's type: a bool,
      a number (or, once typed into, the typed string), a colour, the
      list of key names, or nothing for a header. */
  datatype Status = Flag(on: bool) | Number(x: real) | Typed(text: string) | Colour(rgba: seq<int>)
                  | Keys(names: seq<string>) | NoStatus

  /** A keybind option's menu has one button per key of the eight-key
      layout, each labelled with its entry of the list. */
  const KeybindButtons: nat := 8

  predicate StatusFits(kind: Kind, st: Status) {
    match kind
    case BoolKind => st.Flag?
    case FloatKind => st.Number? || st.Typed?
    case IntKind => st.Number? || st.Typed?
    case ColourKind => st.Colour?
    case KeybindKind => st.Keys? && |st.names| >= KeybindButtons
    case HeaderKind => st.NoStatus?
  }

  /** The attributes the event loop changes. */
  datatype MenuState = MenuState(
    status: Status, newVar: string, typing: bool, menuActive: bool, saved: ConfigValue, currentKey: Option<int>)

  /** What the option's constructor and set_keybind guarantee: the status
      has the option's type, only numeric and keybind options type, the
      typing buffer has a '-' at most at its head, and a chosen keybind slot
      is one of the menu's buttons, each showing one entry of the list. */
  predicate Consistent(kind: Kind, s: MenuState) {
    && StatusFits(kind, s.status)
    && (s.typing ==> kind == FloatKind || kind == IntKind || kind == KeybindKind)
    && MinusOnlyLeading(s.newVar)
    && (kind == KeybindKind && s.currentKey.Some? ==> 0 <= s.currentKey.value < |s.status.names|)
  }

  /** The events update reads: mouse button up and down, a key (by its
      name), and anything else. */
  datatype MenuEvent = ButtonUp(button: int) | ButtonDown(button: int) | KeyPress(name: string) | OtherEvent

  /** What the frame's hit-testing found: the pointer on the option's box,
      on the colour picker's gradient (colour options only), whether the
      menu lets the user interact, and the pixel under the pointer. */
  datatype Frame = Frame(hovering: bool, hoveringColour: bool, canInteract: bool, pixel: seq<int>)

  predicate FrameFits(kind: Kind, f: Frame) {
    f.hoveringColour ==> kind == ColourKind
  }

  /** The mouse part of one event: a left release on a keybind option opens
      its menu; a left press on the option flips a bool (and stores it),
      starts typing into a number or opens the colour picker; a left press
      on the gradient of an open picker takes the pixel as the colour; a
      left press elsewhere stops typing a number. */
  function ClickStep(kind: Kind, f: Frame, s: MenuState, ev: MenuEvent): (r: MenuState)
    requires Consistent(kind, s) && FrameFits(kind, f)
    ensures Consistent(kind, r) && r.newVar == s.newVar && r.currentKey == s.currentKey
    ensures kind == BoolKind && ev == ButtonDown(1) && f.hovering && f.canInteract ==>
      r == s.(status := Flag(!s.status.on), saved := BoolValue(!s.status.on))
    ensures (kind == FloatKind || kind == IntKind) && ev == ButtonDown(1) && f.hovering && f.canInteract ==>
      r == s.(typing := true)
    ensures (kind != KeybindKind && ev == ButtonDown(1) && !f.hovering && s.typing
             && !(f.hoveringColour && s.menuActive)) ==> r == s.(typing := false)
  {
    var s0 := if ev.ButtonUp? && f.hovering && ev.button == 1 && kind == KeybindKind && f.canInteract
              then s.(menuActive := true) else s;
    if ev.ButtonDown? && f.hovering && f.canInteract then
      if ev.button != 1 then s0
      else if kind == BoolKind then s0.(status := Flag(!s0.status.on), saved := BoolValue(!s0.status.on))
      else if kind == FloatKind || kind == IntKind then s0.(typing := true)
      else if kind == ColourKind then s0.(menuActive := true)
      else s0
    else if ev.ButtonDown? && f.hoveringColour && s0.menuActive then
      if ev.button == 1 then s0.(status := Colour(f.pixel)) else s0
    else if ev.ButtonDown? && s0.typing && !f.hovering && kind != KeybindKind then
      if ev.button == 1 then s0.(typing := false) else s0
    else s0
  }

  /** The key part of one event. Escape closes an open colour picker, and
      a keybind menu when no key is being typed. While typing, a keybind
      option writes the key's name into slot current_key (TypeError while
      no slot was chosen) and stops typing; a number
      option takes a legal key by TypeLegal and stores the buffer,
      backspace drops the last character and stores the rest, and return
      stops typing. The state at an exception is the state when it was
      raised. */
  function KeyStep(kind: Kind, min: real, max: real, s: MenuState, name: string)
    : (r: (MenuState, Option<PyError>))
    requires Consistent(kind, s)
    ensures Consistent(kind, r.0)
  {
    var s0 := if name == "escape" && (kind == ColourKind || (kind == KeybindKind && !s.typing))
              then s.(menuActive := false) else s;
    if !s0.typing then (s0, None)
    else if kind == KeybindKind then
      var keys := s0.status.names;
      match s0.currentKey
      case None => (s0, Some(TypeError))
      case Some(k) =>
        (s0.(status := Keys(keys[k := name]), typing := false), None)
    else NumberKey(kind, min, max, s0, name)
  }

  /** A key typed into a number option (the part of KeyStep after the
      escape check). */
  function NumberKey(kind: Kind, min: real, max: real, s: MenuState, name: string)
    : (r: (MenuState, Option<PyError>))
    requires Consistent(kind, s) && s.typing && kind != KeybindKind
    ensures Consistent(kind, r.0)
  {
    if Contains(LegalChars(kind), name) then TypeChar(kind, min, max, s, name)
    else if name == "backspace" then Backspace(kind, s)
    else if name == "return" then (s.(typing := false), None)
    else (s, None)
  }

  /** A legal key: the buffer by TypeLegal, shown and stored by
      SavedAfterLegal. */
  function TypeChar(kind: Kind, min: real, max: real, s: MenuState, name: string)
    : (r: (MenuState, Option<PyError>))
    requires Consistent(kind, s) && s.typing && kind != KeybindKind
    ensures Consistent(kind, r.0) && r.0.typing
  {
    match TypeLegal(kind, s.newVar, name, min < 0.0 || max < 0.0, min, max)
    case Err(e) => (s, Some(e))
    case Ok(nv) =>
      TypeKeepsMinusLeading(kind, s.newVar, name, min < 0.0 || max < 0.0, min, max);
      var s1 := s.(newVar := nv, status := Typed(nv));
      match SavedAfterLegal(kind, nv)
      case Err(e) => (s1, Some(e))
      case Ok(None) => (s1, None)
      case Ok(Some(v)) => (s1.(saved := v), None)
  }

  /** Backspace: the buffer loses its last character, is shown, and is
      stored by SavedAfterBackspace. */
  function Backspace(kind: Kind, s: MenuState): (r: (MenuState, Option<PyError>))
    requires Consistent(kind, s) && s.typing && kind != KeybindKind
    ensures Consistent(kind, r.0) && r.0.typing
  {
    var nv := DropLast(s.newVar);
    assert MinusOnlyLeading(nv) by {
      forall i | 0 < i < |nv| ensures nv[i] != '-' {
        assert nv[i] == s.newVar[i];
      }
    }
    var s1 := s.(newVar := nv, status := Typed(nv));
    match SavedAfterBackspace(nv)
    case Err(e) => (s1, Some(e))
    case Ok(v) => (s1.(saved := v), None)
  }

  /** Any key typed into a number keeps a '-' at most at the head of the
      buffer: the '-' key toggles it, and an appended key is kept only when
      the longer buffer parses. */
  lemma TypeKeepsMinusLeading(kind: Kind, s: string, name: string, canBeNegative: bool, min: real, max: real)
    requires MinusOnlyLeading(s)
    ensures TypeLegal(kind, s, name, canBeNegative, min, max).Ok? ==>
      MinusOnlyLeading(TypeLegal(kind, s, name, canBeNegative, min, max).value)
  {
    if name == "-" {
      ToggleMinusTwice(s);
    } else if name == "." && |s| == 0 {
    } else if kind == FloatKind || kind == IntKind {
      if TypeLegal(kind, s, name, canBeNegative, min, max) == Ok(s + name) && s + name != s {
        ParsedMinusLeading(kind, s + name);
      }
    }
  }

  /** A string int() or float() accepts has a '-' at most at its head. */
  lemma ParsedMinusLeading(kind: Kind, t: string)
    requires (kind == IntKind && ParseInt(t).Ok?) || (kind == FloatKind && ParseFloat(t).Ok?)
    ensures MinusOnlyLeading(t)
  {
    var body := Unsigned(t);
    var off := if |t| > 0 && t[0] == '-' then 1 else 0;
    assert body == t[off..];
    forall i | 0 < i < |t| ensures t[i] != '-' {
      var j := i - off;
      assert body[j] == t[i];
      if kind == IntKind {
        assert IsDigit(body[j]);
      } else {
        match Find(body, ".")
        case None =>
          assert IsDigit(body[j]);
        case Some(k) =>
          if j < k {
            assert body[..k][j] == body[j];
          } else if j == k {
            assert OccursAt(body, ".", k);
            assert body[k..k + 1][0] == body[j];
          } else {
            assert body[k + 1..][j - k - 1] == body[j];
          }
      }
    }
  }

  /** One event of the loop (nothing while the option is inactive). */
  function Step(kind: Kind, min: real, max: real, f: Frame, active: bool, s: MenuState, ev: MenuEvent)
    : (r: (MenuState, Option<PyError>))
    requires Consistent(kind, s) && FrameFits(kind, f)
    ensures Consistent(kind, r.0)
  {
    if !active then (s, None)
    else
      var s1 := ClickStep(kind, f, s, ev);
      if ev.KeyPress? then KeyStep(kind, min, max, s1, ev.name) else (s1, None)
  }

  /** The whole loop: the state after the last event, or where an
      exception stopped it. */
  function Steps(kind: Kind, min: real, max: real, f: Frame, active: bool, s: MenuState, events: seq<MenuEvent>)
    : (r: (MenuState, Option<PyError>))
    requires Consistent(kind, s) && FrameFits(kind, f)
    ensures Consistent(kind, r.0)
    decreases |events|
  {
    if events == [] then (s, None)
    else
      var (s1, e) := Step(kind, min, max, f, active, s, events[0]);
      if e.Some? then (s1, e) else Steps(kind, min, max, f, active, s1, events[1..])
  }

  /** Some event of the frame is a left mouse press. */
  function LeftPressIn(events: seq<MenuEvent>): (b: bool)
    ensures b <==> exists i :: 0 <= i < |events| && events[i] == ButtonDown(1)
    decreases |events|
  {
    if events == [] then false
    else events[0] == ButtonDown(1) || LeftPressIn(events[1..])
  }

  /** The keybind menu's buttons x, x + 1, ... as update runs them before
      its event loop: while nothing is being typed, a button under the
      pointer that sees a left press calls set_keybind(x), which starts
      typing into slot x. */
  function PressButtons(s: MenuState, hover: seq<bool>, events: seq<MenuEvent>, x: nat): (r: MenuState)
    ensures r.(typing := s.typing, currentKey := s.currentKey) == s && r.status == s.status
    ensures r.typing == s.typing || r.typing
    ensures r.currentKey == s.currentKey || (r.currentKey.Some? && r.currentKey.value < |hover|)
    ensures Consistent(KeybindKind, s) && |hover| <= |s.status.names| ==> Consistent(KeybindKind, r)
    decreases |hover| - x
  {
    if x >= |hover| then s
    else
      var s1 := if !s.typing && hover[x] && LeftPressIn(events) then s.(typing := true, currentKey := Some(x)) else s;
      PressButtons(s1, hover, events, x + 1)
  }

  /** The first button from x on that is under the pointer. */
  function FirstHovered(hover: seq<bool>, x: nat): (r: Option<nat>)
    ensures r.Some? ==> x <= r.value < |hover| && hover[r.value] && forall z :: x <= z < r.value ==> !hover[z]
    ensures r.None? ==> forall z :: x <= z < |hover| ==> !hover[z]
    decreases |hover| - x
  {
    if x >= |hover| then None
    else if hover[x] then Some(x)
    else FirstHovered(hover, x + 1)
  }

  /** Once typing has started, the remaining buttons are skipped. */
  lemma {:induction false} TypingSkipsButtons(s: MenuState, hover: seq<bool>, events: seq<MenuEvent>, x: nat)
    requires s.typing
    ensures PressButtons(s, hover, events, x) == s
    decreases |hover| - x
  {
    if x < |hover| {
      TypingSkipsButtons(s, hover, events, x + 1);
    }
  }

  /** The buttons pick the first hovered button when the frame has a left
      press and nothing was being typed; otherwise they change nothing. */
  lemma {:induction false} PressButtonsPicksFirst(s: MenuState, hover: seq<bool>, events: seq<MenuEvent>, x: nat)
    ensures PressButtons(s, hover, events, x)
         == if !s.typing && LeftPressIn(events) && FirstHovered(hover, x).Some?
            then s.(typing := true, currentKey := FirstHovered(hover, x))
            else s
    decreases |hover| - x
  {
    if x < |hover| {
      if !s.typing && hover[x] && LeftPressIn(events) {
        TypingSkipsButtons(s.(typing := true, currentKey := Some(x)), hover, events, x + 1);
      } else {
        PressButtonsPicksFirst(s, hover, events, x + 1);
      }
    }
  }

  // ---------------------------------------------------------------------
  // Properties of the event loop
  // ---------------------------------------------------------------------

  /** Two left presses on a bool option restore its status and store the
      value it started with. */
  lemma BoolClickTwice(f: Frame, s: MenuState)
    requires Consistent(BoolKind, s) && FrameFits(BoolKind, f) && f.hovering && f.canInteract
    ensures var r := Steps(BoolKind, 0.0, 0.0, f, true, s, [ButtonDown(1), ButtonDown(1)]);
      r.1 == None && r.0.status == s.status && r.0.saved == BoolValue(s.status.on)
  {
    var s1 := Step(BoolKind, 0.0, 0.0, f, true, s, ButtonDown(1)).0;
    assert s1.status == Flag(!s.status.on);
    assert [ButtonDown(1), ButtonDown(1)][1..] == [ButtonDown(1)];
  }

  /** A key typed into a keybind option changes slot current_key alone,
      to the key's name, and ends typing. */
  lemma KeybindSetsOneSlot(s: MenuState, name: string, k: nat)
    requires Consistent(KeybindKind, s) && s.typing && s.currentKey == Some(k) && k < |s.status.names|
    ensures var r := KeyStep(KeybindKind, 0.0, 0.0, s, name);
      && r.1 == None && !r.0.typing
      && |r.0.status.names| == |s.status.names| && r.0.status.names[k] == name
      && (forall j :: 0 <= j < |s.status.names| && j != k ==> r.0.status.names[j] == s.status.names[j])
      && r.0.newVar == s.newVar && r.0.saved == s.saved
  {
  }

  /** While a number is typed the buffer keeps any '-' at its head, so the
      '-' key always undoes itself; only return, a press outside the box or
      an exception ends typing. */
  lemma {:induction false} TypingEndsOnlyByReturnOrClick(min: real, max: real, f: Frame, s: MenuState,
                                                           events: seq<MenuEvent>)
    requires Consistent(IntKind, s) && FrameFits(IntKind, f) && s.typing
    requires forall i :: 0 <= i < |events| ==> events[i] != KeyPress("return") && !events[i].ButtonDown?
    ensures var r := Steps(IntKind, min, max, f, true, s, events);
      r.0.typing && MinusOnlyLeading(r.0.newVar)
    decreases |events|
  {
    if events != [] {
      var (s1, e) := Step(IntKind, min, max, f, true, s, events[0]);
      TypingStepKeepsTyping(min, max, f, s, events[0]);
      if e.None? {
        assert forall i :: 0 <= i < |events[1..]| ==> events[1..][i] == events[i + 1];
        TypingEndsOnlyByReturnOrClick(min, max, f, s1, events[1..]);
      }
    }
  }

  /** One event other than return or a press keeps an int option typing. */
  lemma TypingStepKeepsTyping(min: real, max: real, f: Frame, s: MenuState, ev: MenuEvent)
    requires Consistent(IntKind, s) && FrameFits(IntKind, f) && s.typing
    requires ev != KeyPress("return") && !ev.ButtonDown?
    ensures Step(IntKind, min, max, f, true, s, ev).0.typing
  {
    var s1 := ClickStep(IntKind, f, s, ev);
    assert s1.typing;
    if ev.KeyPress? {
      assert KeyStep(IntKind, min, max, s1, ev.name) == NumberKey(IntKind, min, max, s1, ev.name);
      NumberKeyKeepsTyping(IntKind, min, max, s1, ev.name);
    }
  }

  /** Only return ends typing into a number. */
  lemma NumberKeyKeepsTyping(kind: Kind, min: real, max: real, s: MenuState, name: string)
    requires Consistent(kind, s) && s.typing && kind != KeybindKind
    ensures NumberKey(kind, min, max, s, name).0.typing <==> name != "return"
  {
    if name == "return" {
      ContainsOnlyHayChars(LegalChars(kind), name);
      assert name[0] == 'r';
    }
  }

  /** Backspace while typing a number drops the buffer's last character,
      shows the rest and stores it by SavedAfterBackspace; typing goes on. */
  lemma BackspaceStep(kind: Kind, s: MenuState)
    requires Consistent(kind, s) && s.typing && (kind == IntKind || kind == FloatKind)
    ensures var nv := DropLast(s.newVar);
      var r := Backspace(kind, s);
      && r.0.newVar == nv && r.0.status == Typed(nv) && r.0.typing && r.0.menuActive == s.menuActive
      && (SavedAfterBackspace(nv).Ok? ==> r.1 == None && r.0.saved == SavedAfterBackspace(nv).value)
      && (SavedAfterBackspace(nv).Err? ==> r.1 == Some(ValueError) && r.0.saved == s.saved)
  {
  }

  /** The backspace key, typed into a number, is Backspace. */
  lemma BackspaceKey(kind: Kind, min: real, max: real, s: MenuState)
    requires Consistent(kind, s) && s.typing && (kind == IntKind || kind == FloatKind)
    ensures KeyStep(kind, min, max, s, "backspace") == Backspace(kind, s)
  {
    ContainsOnlyHayChars(LegalChars(kind), "backspace");
    assert "backspace"[0] == 'b';
  }

  /** As written, backspace in an int option stores a float: the FPS limit
      typed as 120 and shortened to 12 is stored as 12.0, which getint
      refuses once the settings file is read back. */
  lemma IntBackspaceStoresFloat(s: MenuState)
    requires Consistent(IntKind, s) && s.typing && s.newVar == "120"
    ensures var r := KeyStep(IntKind, 1.0, 999.0, s, "backspace");
      && r.1 == None && r.0.newVar == "12"
      && r.0.saved == FloatValue(12.0) && GetInt(r.0.saved) == Err(ValueError)
  {
    assert DropLast("120") == "12";
    TwelveParses();
    BackspaceKey(IntKind, 1.0, 999.0, s);
    BackspaceStep(IntKind, s);
  }

  lemma TwelveParses()
    ensures ParseFloat("12") == Ok(12.0)
  {
    match Find("12", ".")
    case Some(k) =>
      assert "12"[k..k + 1][0] == "12"[k];
    case None =>
    assert "12"[..1] == "1";
    assert "1"[..0] == "";
  }

  /** Every character of a substring is a character of the whole string. */
  lemma {:induction false} ContainsOnlyHayChars(hay: string, needle: string)
    ensures Contains(hay, needle) ==> forall i :: 0 <= i < |needle| ==> needle[i] in hay
    decreases |hay|
  {
    if !Contains(hay, needle) {
    } else if StartsWith(hay, needle) {
      forall i | 0 <= i < |needle| ensures needle[i] in hay {
        assert hay[..|needle|][i] == hay[i];
      }
    } else {
      ContainsOnlyHayChars(hay[1..], needle);
      forall i | 0 <= i < |needle| ensures needle[i] in hay {
        var j :| 0 <= j < |hay[1..]| && hay[1..][j] == needle[i];
        assert hay[j + 1] == needle[i];
      }
    }
  }

  // ---------------------------------------------------------------------
  // The option
  // ---------------------------------------------------------------------

  /** An entry of the options menu. */
  class MenuOption {
    const kind: Kind
    const min: real
    const max: real
    var status: Status
    var newVar: string
    var typing: bool
    var menuActive: bool
    var active: bool
    var hovering: bool
    var hoveringColour: bool
    var saved: ConfigValue
    var currentKey: Option<int>

    function State(): MenuState
      reads this
    {
      MenuState(status, newVar, typing, menuActive, saved, currentKey)
    }

    ghost predicate Valid()
      reads this
    {
      Consistent(kind, State()) && (hoveringColour ==> kind == ColourKind)
    }

    /** Option.__init__ with the value read from the settings: nothing
        typed, not typing, active, no menu open, nothing hovered. can_be_negative
        is min < 0 or max < 0. */
    constructor (kind: Kind, min: real, max: real, status: Status, saved: ConfigValue)
      requires StatusFits(kind, status)
      ensures Valid() && this.kind == kind && this.min == min && this.max == max
      ensures State() == MenuState(status, "", false, false, saved, None)
      ensures active && !hovering && !hoveringColour
    {
      this.kind := kind;
      this.min := min;
      this.max := max;
      this.status := status;
      this.saved := saved;
      newVar := "";
      typing := false;
      menuActive := false;
      active := true;
      hovering := false;
      hoveringColour := false;
      currentKey := None;
    }

    /** set_keybind(id): a keybind menu button was clicked; typing starts
        for slot id. */
    method SetKeybind(id: int)
      requires Valid() && kind == KeybindKind && 0 <= id < |status.names|
      modifies this`typing, this`currentKey
      ensures Valid() && typing && currentKey == Some(id)
    {
      typing := true;
      currentKey := Some(id);
    }

    /** The mouse part of an event (ClickStep). */
    method Click(ev: MenuEvent, f: Frame)
      requires Valid() && FrameFits(kind, f)
      modifies this`status, this`typing, this`menuActive, this`saved
      ensures Valid() && State() == ClickStep(kind, f, old(State()), ev)
    {
      if ev.ButtonUp? && f.hovering && ev.button == 1 && kind == KeybindKind && f.canInteract {
        menuActive := true;
      }
      if ev.ButtonDown? && f.hovering && f.canInteract {
        if ev.button == 1 {
          if kind == BoolKind {
            saved := BoolValue(!status.on);
            status := Flag(!status.on);
          } else if kind == FloatKind || kind == IntKind {
            typing := true;
          } else if kind == ColourKind {
            menuActive := true;
          }
        }
      } else if ev.ButtonDown? && f.hoveringColour && menuActive {
        if ev.button == 1 {
          status := Colour(f.pixel);
        }
      } else if ev.ButtonDown? && typing && !f.hovering && kind != KeybindKind {
        if ev.button == 1 {
          typing := false;
        }
      }
    }

    /** The key part of an event (KeyStep). */
    method Key(name: string) returns (err: Option<PyError>)
      requires Valid()
      modifies this`status, this`newVar, this`typing, this`menuActive, this`saved
      ensures Valid() && (State(), err) == KeyStep(kind, min, max, old(State()), name)
    {
      err := None;
      if name == "escape" {
        if kind == ColourKind {
          menuActive := false;
        } else if kind == KeybindKind {
          if !typing {
            menuActive := false;
          }
        }
      }
      if !typing {
        return;
      }
      if kind == KeybindKind {
        var keys := status.names;
        if currentKey.None? {
          return Some(TypeError);
        }
        status := Keys(keys[currentKey.value := name]);
        typing := false;
      } else {
        err := TypeNumber(name);
      }
    }

    /** A key while typing a number (NumberKey). */
    method TypeNumber(name: string) returns (err: Option<PyError>)
      requires Valid() && typing && kind != KeybindKind
      modifies this`status, this`newVar, this`typing, this`saved
      ensures Valid() && (State(), err) == NumberKey(kind, min, max, old(State()), name)
    {
      err := None;
      if Contains(LegalChars(kind), name) {
        err := TypeLegalKey(name);
      } else if name == "backspace" {
        err := DeleteLast();
      } else if name == "return" {
        typing := false;
      }
    }

    /** A legal key while typing a number (TypeChar). */
    method TypeLegalKey(name: string) returns (err: Option<PyError>)
      requires Valid() && typing && kind != KeybindKind
      modifies this`status, this`newVar, this`saved
      ensures Valid() && (State(), err) == TypeChar(kind, min, max, old(State()), name)
    {
      err := None;
      var typed := TypeLegal(kind, newVar, name, min < 0.0 || max < 0.0, min, max);
      if typed.Err? {
        return Some(typed.error);
      }
      TypeKeepsMinusLeading(kind, newVar, name, min < 0.0 || max < 0.0, min, max);
      newVar := typed.value;
      status := Typed(newVar);
      var value := SavedAfterLegal(kind, newVar);
      if value.Err? {
        return Some(value.error);
      }
      if value.value.Some? {
        saved := value.value.value;
      }
    }

    /** Backspace while typing a number (Backspace). */
    method DeleteLast() returns (err: Option<PyError>)
      requires Valid() && typing && kind != KeybindKind
      modifies this`status, this`newVar, this`saved
      ensures Valid() && (State(), err) == Backspace(kind, old(State()))
    {
      err := None;
      newVar := DropLast(newVar);
      status := Typed(newVar);
      var value := SavedAfterBackspace(newVar);
      if value.Err? {
        return Some(value.error);
      }
      saved := value.value;
    }

    /** One event of the loop (Step). */
    method Handle(ev: MenuEvent, f: Frame) returns (err: Option<PyError>)
      requires Valid() && FrameFits(kind, f)
      modifies this`status, this`newVar, this`typing, this`menuActive, this`saved
      ensures Valid() && (State(), err) == Step(kind, min, max, f, active, old(State()), ev)
    {
      err := None;
      if active {
        Click(ev, f);
        if ev.KeyPress? {
          err := Key(ev.name);
        }
      }
    }

    /** Option.update for one frame: the hovering flags are taken from the
        frame's hit-testing (a header keeps its own, and only an open
        colour picker follows the gradient); an open keybind menu runs its
        buttons (`buttonHover`: the hover flag of each button, which a
        button skipped while typing keeps from an earlier frame) and its
        own hovering ends as the last button's; then the events are handled
        in order while the option is active; an exception stops the frame. */
    method Update(events: seq<MenuEvent>, hovering: bool, hoveringColour: bool, buttonHover: seq<bool>,
                  canInteract: bool, pixel: seq<int>)
      returns (err: Option<PyError>)
      requires Valid() && (hoveringColour ==> kind == ColourKind) && |buttonHover| == KeybindButtons
      modifies this`status, this`newVar, this`typing, this`menuActive, this`saved, this`hovering, this`hoveringColour
      modifies this`currentKey
      ensures Valid()
      ensures this.hovering == (if kind == HeaderKind then old(this.hovering)
                                else if kind == KeybindKind && old(menuActive) then buttonHover[KeybindButtons - 1]
                                else hovering)
      ensures this.hoveringColour == (if kind == ColourKind && old(menuActive) then hoveringColour else old(this.hoveringColour))
      ensures var s0 := if kind == KeybindKind && old(menuActive) then PressButtons(old(State()), buttonHover, events, 0)
                        else old(State());
        (State(), err) == Steps(kind, min, max, Frame(this.hovering, this.hoveringColour, canInteract, pixel), active, s0, events)
    {
      if kind == KeybindKind && menuActive {
        this.hovering := buttonHover[KeybindButtons - 1];
      } else if kind != HeaderKind {
        this.hovering := hovering;
      }
      if kind == ColourKind && menuActive {
        this.hoveringColour := hoveringColour;
      }
      if kind == KeybindKind && menuActive {
        PressMenuButtons(buttonHover, events);
      }
      err := HandleAll(events, Frame(this.hovering, this.hoveringColour, canInteract, pixel));
    }

    /** The button loop of an open keybind menu (PressButtons): each
        button runs its own event loop, calling set_keybind on a left
        press while it is under the pointer, and is skipped once typing. */
    method PressMenuButtons(hover: seq<bool>, events: seq<MenuEvent>)
      requires Valid() && kind == KeybindKind && |hover| == KeybindButtons
      modifies this`typing, this`currentKey
      ensures Valid() && State() == PressButtons(old(State()), hover, events, 0)
    {
      var x := 0;
      while x < |hover|
        invariant 0 <= x <= |hover| && Valid()
        invariant PressButtons(old(State()), hover, events, 0) == PressButtons(State(), hover, events, x)
      {
        if !typing && hover[x] && LeftPressIn(events) {
          SetKeybind(x);
        }
        x := x + 1;
      }
    }

    /** The event loop of update (Steps). */
    method HandleAll(events: seq<MenuEvent>, f: Frame) returns (err: Option<PyError>)
      requires Valid() && FrameFits(kind, f)
      modifies this`status, this`newVar, this`typing, this`menuActive, this`saved
      ensures Valid() && (State(), err) == Steps(kind, min, max, f, active, old(State()), events)
    {
      err := None;
      var i := 0;
      while i < |events|
        invariant 0 <= i <= |events| && Valid() && err.None?
        invariant Steps(kind, min, max, f, active, old(State()), events) == Steps(kind, min, max, f, active, State(), events[i..])
      {
        assert events[i..][0] == events[i] && events[i..][1..] == events[i + 1..];
        ghost var before := State();
        err := Handle(events[i], f);
        if err.Some? {
          assert Steps(kind, min, max, f, active, before, events[i..]) == (State(), err);
          return;
        }
        i := i + 1;
      }
      assert events[i..] == [];
    }
  }
}
