/** Printed shortcuts and shortcut contexts (apps/server/src/keybindings.ts:
    `encodeShortcut`, `keybindingShortcutContext`, `hasSameShortcutContext`). */
module Shortcuts {
  import opened Outcomes

  datatype Shortcut = Shortcut(key: string, modKey: bool, metaKey: bool, ctrlKey: bool, altKey: bool, shiftKey: bool)

  function Pick(flag: bool, token: string, rest: seq<string>): seq<string> {
    if flag then [token] + rest else rest
  }

  /** The modifiers in their fixed order, and the key. */
  function PrintedTokens(s: Shortcut): seq<string> {
    Pick(s.modKey, "mod", Pick(s.metaKey, "meta", Pick(s.ctrlKey, "ctrl",
      Pick(s.altKey, "alt", Pick(s.shiftKey, "shift", [KeyName(s.key)])))))
  }

  function JoinPlus(tokens: seq<string>): string {
    if tokens == [] then ""
    else if |tokens| == 1 then tokens[0]
    else tokens[0] + "+" + JoinPlus(tokens[1..])
  }

  function KeyName(key: string): string {
    if key == " " then "space" else key
  }

  function EncodeShortcut(s: Shortcut): Option<string> {
    if s.key == "" then None
    else if s.key != "+" && '+' in s.key then None
    else Some(JoinPlus(PrintedTokens(s)))
  }

  // ---------------------------------------------------------------- what a printed shortcut begins with

  function Part(flag: bool, token: string, rest: string): string {
    if flag then token + "+" + rest else rest
  }

  /** What is printed before the key. */
  function ModifierText(s: Shortcut): string {
    Part(s.modKey, "mod", Part(s.metaKey, "meta", Part(s.ctrlKey, "ctrl",
      Part(s.altKey, "alt", Part(s.shiftKey, "shift", "")))))
  }

  lemma JoinPick(flag: bool, token: string, rest: seq<string>, text: string, key: string)
    requires rest != [] && JoinPlus(rest) == text + key
    ensures Pick(flag, token, rest) != []
    ensures JoinPlus(Pick(flag, token, rest)) == Part(flag, token, text) + key
  {
    if flag {
      assert ([token] + rest)[1..] == rest;
      assert token + "+" + (text + key) == token + "+" + text + key;
    }
  }

  lemma JoinParts(s: Shortcut)
    ensures JoinPlus(PrintedTokens(s)) == ModifierText(s) + KeyName(s.key)
  {
    var key := KeyName(s.key);
    assert "" + key == key;
    var shift, shiftText := Pick(s.shiftKey, "shift", [key]), Part(s.shiftKey, "shift", "");
    JoinPick(s.shiftKey, "shift", [key], "", key);
    var alt, altText := Pick(s.altKey, "alt", shift), Part(s.altKey, "alt", shiftText);
    JoinPick(s.altKey, "alt", shift, shiftText, key);
    var ctrl, ctrlText := Pick(s.ctrlKey, "ctrl", alt), Part(s.ctrlKey, "ctrl", altText);
    JoinPick(s.ctrlKey, "ctrl", alt, altText, key);
    var meta, metaText := Pick(s.metaKey, "meta", ctrl), Part(s.metaKey, "meta", ctrlText);
    JoinPick(s.metaKey, "meta", ctrl, ctrlText, key);
    JoinPick(s.modKey, "mod", meta, metaText, key);
  }

  predicate SameModifiers(a: Shortcut, b: Shortcut) {
    && a.modKey == b.modKey && a.metaKey == b.metaKey && a.ctrlKey == b.ctrlKey
    && a.altKey == b.altKey && a.shiftKey == b.shiftKey
  }

  /** A number for the first two characters of a text. */
  function Lead(text: string): int {
    if |text| < 2 then 0 else text[0] as int * 1000 + text[1] as int
  }

  /** A part is decided by how the text begins, when what may follow begins differently. */
  lemma PartDecides(f: bool, g: bool, token: string, rest: string, other: string)
    requires |token| > 1 && Lead(rest) != Lead(token) && Lead(other) != Lead(token)
    ensures Lead(Part(f, token, rest)) == if f then Lead(token) else Lead(rest)
    ensures Lead(Part(g, token, other)) == if g then Lead(token) else Lead(other)
    ensures Part(f, token, rest) == Part(g, token, other) <==> f == g && rest == other
  {
    assert (token + "+" + rest)[0] == token[0] && (token + "+" + rest)[1] == token[1];
    assert (token + "+" + other)[0] == token[0] && (token + "+" + other)[1] == token[1];
    assert (token + "+" + rest)[|token| + 1..] == rest;
    assert (token + "+" + other)[|token| + 1..] == other;
  }

  lemma Leads()
    ensures Lead("") == 0 && Lead("mod") == 109111 && Lead("meta") == 109101
    ensures Lead("ctrl") == 99116 && Lead("alt") == 97108 && Lead("shift") == 115104
  {
  }

  /** Two texts begin as the given flags and tokens say, and are equal when the flags are. */
  ghost predicate Decided(same: bool, leads: set<int>, text: string, other: string) {
    && (text == other <==> same)
    && Lead(text) in leads && Lead(other) in leads
  }

  lemma DecidedNext(f: bool, g: bool, token: string, same: bool, leads: set<int>, rest: string, other: string)
    requires Decided(same, leads, rest, other) && |token| > 1 && Lead(token) !in leads
    ensures Decided(f == g && same, leads + {Lead(token)}, Part(f, token, rest), Part(g, token, other))
  {
    PartDecides(f, g, token, rest, other);
  }

  lemma ModifiersDecided(a: Shortcut, b: Shortcut)
    ensures ModifierText(a) == ModifierText(b) <==> SameModifiers(a, b)
  {
    Leads();
    assert Decided(true, {0}, "", "");
    LowDecided(a, b);
    var ctrl := Part(a.ctrlKey, "ctrl", Part(a.altKey, "alt", Part(a.shiftKey, "shift", "")));
    var ctrl' := Part(b.ctrlKey, "ctrl", Part(b.altKey, "alt", Part(b.shiftKey, "shift", "")));
    var low := a.ctrlKey == b.ctrlKey && a.altKey == b.altKey && a.shiftKey == b.shiftKey;
    var leads := {0, 115104, 97108, 99116};
    DecidedNext(a.metaKey, b.metaKey, "meta", low, leads, ctrl, ctrl');
    var meta, meta' := Part(a.metaKey, "meta", ctrl), Part(b.metaKey, "meta", ctrl');
    DecidedNext(a.modKey, b.modKey, "mod", a.metaKey == b.metaKey && low, leads + {109101}, meta, meta');
  }

  lemma LowDecided(a: Shortcut, b: Shortcut)
    ensures Decided(a.ctrlKey == b.ctrlKey && a.altKey == b.altKey && a.shiftKey == b.shiftKey, {0, 115104, 97108, 99116},
                    Part(a.ctrlKey, "ctrl", Part(a.altKey, "alt", Part(a.shiftKey, "shift", ""))),
                    Part(b.ctrlKey, "ctrl", Part(b.altKey, "alt", Part(b.shiftKey, "shift", ""))))
  {
    Leads();
    assert Decided(true, {0}, "", "");
    DecidedNext(a.shiftKey, b.shiftKey, "shift", true, {0}, "", "");
    var shift, shift' := Part(a.shiftKey, "shift", ""), Part(b.shiftKey, "shift", "");
    DecidedNext(a.altKey, b.altKey, "alt", a.shiftKey == b.shiftKey, {0, 115104}, shift, shift');
    var alt, alt' := Part(a.altKey, "alt", shift), Part(b.altKey, "alt", shift');
    DecidedNext(a.ctrlKey, b.ctrlKey, "ctrl", a.altKey == b.altKey && a.shiftKey == b.shiftKey, {0, 115104, 97108}, alt, alt');
    assert {0, 115104, 97108} + {99116} == {0, 115104, 97108, 99116};
    assert {0, 115104} + {97108} == {0, 115104, 97108} && {0} + {115104} == {0, 115104};
  }

  predicate EndsPlus(text: string) {
    text == "" || text[|text| - 1] == '+'
  }

  lemma PartEnds(flag: bool, token: string, rest: string)
    requires EndsPlus(rest)
    ensures EndsPlus(Part(flag, token, rest))
  {
  }

  lemma ModifierTextEnds(s: Shortcut)
    ensures EndsPlus(ModifierText(s))
  {
    var shift := Part(s.shiftKey, "shift", "");
    PartEnds(s.shiftKey, "shift", "");
    var alt := Part(s.altKey, "alt", shift);
    PartEnds(s.altKey, "alt", shift);
    var ctrl := Part(s.ctrlKey, "ctrl", alt);
    PartEnds(s.ctrlKey, "ctrl", alt);
    PartEnds(s.metaKey, "meta", ctrl);
    PartEnds(s.modKey, "mod", Part(s.metaKey, "meta", ctrl));
  }

  // ---------------------------------------------------------------- shortcuts that print alike

  /** The key part of a printed shortcut: free of `+`, or `+` itself. */
  predicate IsKeyPart(k: string) {
    k == "+" || (k != "" && '+' !in k)
  }

  /** Where a text with a key free of `+` has its last `+`. */
  lemma LastPlus(p: string, k: string)
    requires EndsPlus(p) && '+' !in k
    ensures var s := p + k;
            && (p != "" ==> s[|p| - 1] == '+')
            && (forall i | |p| <= i < |s| :: s[i] != '+')
            && s[..|p|] == p && s[|p|..] == k
  {
    var s := p + k;
    forall i | |p| <= i < |s| ensures s[i] != '+' {
      assert s[i] == k[i - |p|];
    }
  }

  lemma SplitKey(p: string, k: string, q: string, l: string)
    requires p + k == q + l && IsKeyPart(k) && IsKeyPart(l) && EndsPlus(p) && EndsPlus(q)
    ensures p == q && k == l
  {
    var s := p + k;
    assert s[|s| - 1] == k[|k| - 1] && (q + l)[|s| - 1] == l[|l| - 1];
    if k != "+" {
      assert k[|k| - 1] in k;
      LastPlus(p, k);
      LastPlus(q, l);
    } else {
      assert l[|l| - 1] in l;
      assert s[..|s| - 1] == p && (q + l)[..|s| - 1] == q;
    }
  }

  /** The same shortcut, up to calling the space key by its name. */
  predicate Alike(a: Shortcut, b: Shortcut) {
    SameModifiers(a, b) && KeyName(a.key) == KeyName(b.key)
  }

  /** A shortcut is printed unless its key is empty or holds a `+` beside something else. */
  lemma PrintedExactly(s: Shortcut)
    ensures EncodeShortcut(s).Some? <==> IsKeyPart(s.key)
  {
  }

  lemma Printed(s: Shortcut)
    requires EncodeShortcut(s).Some?
    ensures EncodeShortcut(s).value == ModifierText(s) + KeyName(s.key)
    ensures IsKeyPart(KeyName(s.key)) && EndsPlus(ModifierText(s))
  {
    JoinParts(s);
    ModifierTextEnds(s);
  }

  /** Shortcuts print alike exactly when they are the same up to the name of the space key. */
  lemma ShortcutsPrintAlike(a: Shortcut, b: Shortcut)
    requires EncodeShortcut(a).Some? && EncodeShortcut(b).Some?
    ensures EncodeShortcut(a) == EncodeShortcut(b) <==> Alike(a, b)
  {
    Printed(a);
    Printed(b);
    ModifiersDecided(a, b);
    if EncodeShortcut(a) == EncodeShortcut(b) {
      SplitKey(ModifierText(a), KeyName(a.key), ModifierText(b), KeyName(b.key));
    }
  }

  // ---------------------------------------------------------------- contexts

  /** What a rule's shortcut and when text come to; the shortcut is already parsed. */
  function Context(shortcut: Option<Shortcut>, when: Option<string>): Option<string> {
    if shortcut.None? || EncodeShortcut(shortcut.value).None? then None
    else Some(EncodeShortcut(shortcut.value).value + "\0" + WhenText(when))
  }

  function WhenText(when: Option<string>): string {
    if when.Some? then when.value else ""
  }

  predicate SameContext(s: Option<Shortcut>, w: Option<string>, t: Option<Shortcut>, v: Option<string>) {
    Context(s, w).Some? && Context(t, v).Some? && Context(s, w) == Context(t, v)
  }

  lemma LastNulAt(a: string, x: string)
    requires '\0' !in x
    ensures var s := a + "\0" + x;
            && s[|a|] == '\0' && (forall i | |a| < i < |s| :: s[i] != '\0')
            && s[..|a|] == a && s[|a| + 1..] == x
  {
    var s := a + "\0" + x;
    forall i | |a| < i < |s| ensures s[i] != '\0' {
      assert s[i] == x[i - |a| - 1];
    }
  }

  lemma LastNul(a: string, x: string, b: string, y: string)
    requires '\0' !in x && '\0' !in y
    ensures a + "\0" + x == b + "\0" + y <==> a == b && x == y
  {
    LastNulAt(a, x);
    LastNulAt(b, y);
  }

  /** Whatever the keys hold, when texts without a NUL leave the last NUL of a context as the
      separator: equal contexts mean equal shortcuts and equal when texts. */
  lemma SameContextMeans(s: Option<Shortcut>, w: Option<string>, t: Option<Shortcut>, v: Option<string>)
    requires '\0' !in WhenText(w) && '\0' !in WhenText(v)
    ensures SameContext(s, w, t, v)
       <==> Context(s, w).Some? && Context(t, v).Some? && Alike(s.value, t.value) && WhenText(w) == WhenText(v)
  {
    if Context(s, w).Some? && Context(t, v).Some? {
      ShortcutsPrintAlike(s.value, t.value);
      LastNul(EncodeShortcut(s.value).value, WhenText(w), EncodeShortcut(t.value).value, WhenText(v));
    }
  }
}
