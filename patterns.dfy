/** The four fixed regular expressions of the checker (src/main.rs:70-73), each
    written out as a string matcher that returns the captured group, if any.

      function name   ^vk([^(\s]+)\(            anchored at the start of the line
      old layout      oldLayout:[^=]+=\s(\w+)   unanchored, leftmost match
      new layout      newLayout:[^=]+=\s(\w+)   unanchored, leftmost match
      image pointer   image:[^=]+=\s(\w+)       unanchored, leftmost match

    `\w` is taken as an ASCII letter, digit or `_`, and `\s` as an ASCII
    white-space character (space, tab, line feed, vertical tab, form feed,
    carriage return); the regex crate's Unicode classes are wider. */
module Patterns {
  import opened Wrappers

  predicate IsSpace(c: char) {
    c == ' ' || '\t' <= c <= '\r'
  }

  predicate IsWordChar(c: char) {
    'a' <= c <= 'z' || 'A' <= c <= 'Z' || '0' <= c <= '9' || c == '_'
  }

  /** The three repeated character classes of the patterns. */
  datatype CharClass =
    | NameChar   // [^(\s]
    | NotEquals  // [^=]
    | WordChar   // \w

  predicate InClass(c: char, cls: CharClass) {
    match cls
    case NameChar => c != '(' && !IsSpace(c)
    case NotEquals => c != '='
    case WordChar => IsWordChar(c)
  }

  /** End of the longest run of `cls` characters in `s` starting at `i`: what a
      greedy `cls+` or `cls*` consumes there. */
  function RunEnd(s: string, i: nat, cls: CharClass): (k: nat)
    requires i <= |s|
    ensures i <= k <= |s|
    ensures forall j :: i <= j < k ==> InClass(s[j], cls)
    ensures k < |s| ==> !InClass(s[k], cls)
    decreases |s| - i
  {
    if i < |s| && InClass(s[i], cls) then RunEnd(s, i + 1, cls) else i
  }

  /** A run is determined by where it starts: any `k` with the two properties
      of `RunEnd` is `RunEnd`. */
  lemma RunEndUnique(s: string, i: nat, k: nat, cls: CharClass)
    requires i <= k <= |s|
    requires forall j :: i <= j < k ==> InClass(s[j], cls)
    requires k < |s| ==> !InClass(s[k], cls)
    ensures RunEnd(s, i, cls) == k
  {
  }

  // ---------------------------------------------------------------------------
  // ^vk([^(\s]+)\(

  predicate IsWord(v: string) {
    |v| > 0 && forall j :: 0 <= j < |v| ==> IsWordChar(v[j])
  }

  /** A function name as the pattern captures it: non-empty, without `(` and
      without white space. */
  predicate ValidName(name: string) {
    |name| > 0 && forall j :: 0 <= j < |name| ==> InClass(name[j], NameChar)
  }

  /** The `fn_name` capture of `^vk(?P<fn_name>[^\(\s]+)\(`. */
  function FunctionName(line: string): (r: Option<string>)
    ensures r.Some? ==> ValidName(r.value) && "vk" + r.value + "(" <= line
  {
    if 2 <= |line| && line[0] == 'v' && line[1] == 'k' then
      var k := RunEnd(line, 2, NameChar);
      if 2 < k < |line| && line[k] == '(' then Some(line[2..k]) else None
    else
      None
  }

  /** The converse of `FunctionName`'s contract: every line that starts with
      `vk`, a valid name and `(` yields exactly that name. With that contract,
      `FunctionName(line) == Some(name)` holds exactly when `ValidName(name)`
      and `"vk" + name + "("` is a prefix of `line`. */
  lemma FunctionNameComplete(line: string, name: string)
    requires ValidName(name) && "vk" + name + "(" <= line
    ensures FunctionName(line) == Some(name)
  {
    var k := 2 + |name|;
    assert line[..k + 1] == "vk" + name + "(";
    assert line[k] == '(';
    forall j | 2 <= j < k
      ensures InClass(line[j], NameChar)
    {
      assert line[j] == name[j - 2];
    }
    RunEndUnique(line, 2, k, NameChar);
    assert line[2..k] == name;
  }

  // ---------------------------------------------------------------------------
  // key:[^=]+=\s(\w+)

  const OldLayoutLabel := "oldLayout:"
  const NewLayoutLabel := "newLayout:"
  const ImagePtrLabel := "image:"

  /** The pattern `key[^=]+=\s(\w+)` matches `line` starting at position
      `i`, with its `=` at position `eq`, capturing `v`: the key, a non-empty
      gap free of `=`, the `=`, one white-space character, then `v`, a
      non-empty run of word characters that the greedy `\w+` cannot extend. */
  predicate FieldMatch(key: string, line: string, i: nat, eq: nat, v: string) {
    && i + |key| < eq
    && eq + 2 + |v| <= |line|
    && line[i..i + |key|] == key
    && (forall j :: i + |key| <= j < eq ==> line[j] != '=')
    && line[eq] == '='
    && IsSpace(line[eq + 1])
    && line[eq + 2..eq + 2 + |v|] == v
    && IsWord(v)
    && (eq + 2 + |v| == |line| || !IsWordChar(line[eq + 2 + |v|]))
  }

  /** The capture of `key[^=]+=\s(\w+)` when the match must start at `i`.
      `[^=]+` cannot contain `=`, so it stops at the first `=` after the key;
      `\w+` is greedy, so it takes the whole run of word characters. */
  function FieldAt(key: string, line: string, i: nat): (r: Option<string>)
    requires i <= |line|
    ensures r.Some? ==> i + |key| <= |line| && line[i..i + |key|] == key && IsWord(r.value)
  {
    if i + |key| <= |line| && line[i..i + |key|] == key then
      var eq := RunEnd(line, i + |key|, NotEquals);
      if i + |key| < eq && eq + 1 < |line| && IsSpace(line[eq + 1]) then
        var e := RunEnd(line, eq + 2, WordChar);
        if eq + 2 < e then Some(line[eq + 2..e]) else None
      else
        None
    else
      None
  }

  /** What `FieldAt` captures is a match of the pattern at `i`. */
  lemma FieldAtSound(key: string, line: string, i: nat, v: string)
    requires i <= |line| && FieldAt(key, line, i) == Some(v)
    ensures i + |key| <= |line|
    ensures FieldMatch(key, line, i, RunEnd(line, i + |key|, NotEquals), v)
  {
  }

  /** Every match of the pattern at `i` is what `FieldAt` captures there. */
  lemma FieldAtComplete(key: string, line: string, i: nat, eq: nat, v: string)
    requires FieldMatch(key, line, i, eq, v)
    ensures FieldAt(key, line, i) == Some(v)
  {
  }

  /** A match with its capture and the position where it starts. */
  datatype Capture = Capture(pos: nat, value: string)

  /** The leftmost match starting at or after `i`, as the regex search finds it. */
  function FieldFrom(key: string, line: string, i: nat): (r: Option<Capture>)
    requires i <= |line|
    ensures r.Some? ==> i <= r.value.pos <= |line|
    ensures r.Some? ==> FieldAt(key, line, r.value.pos) == Some(r.value.value)
    ensures r.Some? ==> forall j :: i <= j < r.value.pos ==> FieldAt(key, line, j) == None
    ensures r.None? ==> forall j :: i <= j <= |line| ==> FieldAt(key, line, j) == None
    decreases |line| - i
  {
    match FieldAt(key, line, i)
    case Some(v) => Some(Capture(i, v))
    case None => if i == |line| then None else FieldFrom(key, line, i + 1)
  }

  /** The pattern matches `line` somewhere, capturing `v`. */
  ghost predicate FieldMatchesSomewhere(key: string, line: string, v: string) {
    exists i: nat, eq: nat :: FieldMatch(key, line, i, eq, v)
  }

  /** The capture group of an unanchored search for `key[^=]+=\s(\w+)`. */
  function FieldValue(key: string, line: string): (r: Option<string>)
    ensures r.Some? ==> IsWord(r.value) && FieldMatchesSomewhere(key, line, r.value)
  {
    match FieldFrom(key, line, 0)
    case Some(c) => FieldAtSound(key, line, c.pos, c.value); Some(c.value)
    case None => None
  }

  /** A capture is a match of the pattern, and no match starts further left. */
  lemma FieldValueSound(key: string, line: string, v: string)
    requires FieldValue(key, line) == Some(v)
    ensures IsWord(v)
    ensures exists i: nat, eq: nat :: FieldMatch(key, line, i, eq, v)
    ensures exists i: nat, eq: nat ::
              && FieldMatch(key, line, i, eq, v)
              && forall j: nat, eq': nat, w: string :: j < i ==> !FieldMatch(key, line, j, eq', w)
  {
    var c := FieldFrom(key, line, 0).value;
    FieldAtSound(key, line, c.pos, v);
    forall j: nat, eq: nat, w: string | j < c.pos
      ensures !FieldMatch(key, line, j, eq, w)
    {
      if FieldMatch(key, line, j, eq, w) {
        FieldAtComplete(key, line, j, eq, w);
      }
    }
  }

  /** No capture means the pattern matches nowhere in the line. */
  lemma FieldValueNone(key: string, line: string)
    requires FieldValue(key, line) == None
    ensures forall i: nat, eq: nat, w: string :: !FieldMatch(key, line, i, eq, w)
  {
    forall i: nat, eq: nat, w: string
      ensures !FieldMatch(key, line, i, eq, w)
    {
      if FieldMatch(key, line, i, eq, w) {
        FieldAtComplete(key, line, i, eq, w);
      }
    }
  }

  /** A match with no match further left is the capture. */
  lemma FieldValueComplete(key: string, line: string, i: nat, eq: nat, v: string)
    requires FieldMatch(key, line, i, eq, v)
    requires forall j: nat, eq': nat, w: string :: j < i ==> !FieldMatch(key, line, j, eq', w)
    ensures FieldValue(key, line) == Some(v)
  {
    FieldAtComplete(key, line, i, eq, v);
    var r := FieldFrom(key, line, 0);
    var c := r.value;
    if c.pos < i {
      FieldAtSound(key, line, c.pos, c.value);
    }
  }

  /** A line that begins with the field, in the trace format
      `key gap = value rest`, yields `value`. */
  lemma FieldValueOfLine(line: string, key: string, gap: string, ws: char, v: string, rest: string)
    requires line == key + gap + ['=', ws] + v + rest
    requires |gap| > 0 && forall j :: 0 <= j < |gap| ==> gap[j] != '='
    requires IsSpace(ws) && IsWord(v)
    requires rest == [] || !IsWordChar(rest[0])
    ensures FieldValue(key, line) == Some(v)
  {
    var eq := |key| + |gap|;
    assert line[0..|key|] == key;
    forall j | |key| <= j < eq
      ensures line[j] != '='
    {
      assert line[j] == gap[j - |key|];
    }
    assert line[eq] == '=' && line[eq + 1] == ws;
    assert line[eq + 2..eq + 2 + |v|] == v;
    assert eq + 2 + |v| < |line| ==> line[eq + 2 + |v|] == rest[0];
    FieldValueComplete(key, line, 0, eq, v);
  }

  /** The `old_layout` capture (src/main.rs:71-73). */
  function OldLayout(line: string): (r: Option<string>)
    ensures r.Some? ==> IsWord(r.value) && FieldMatchesSomewhere(OldLayoutLabel, line, r.value)
  {
    FieldValue(OldLayoutLabel, line)
  }

  /** The `new_layout` capture (src/main.rs:71-73). */
  function NewLayout(line: string): (r: Option<string>)
    ensures r.Some? ==> IsWord(r.value) && FieldMatchesSomewhere(NewLayoutLabel, line, r.value)
  {
    FieldValue(NewLayoutLabel, line)
  }

  /** The `img_ptr` capture (src/main.rs:71-73). */
  function ImagePtr(line: string): (r: Option<string>)
    ensures r.Some? ==> IsWord(r.value) && FieldMatchesSomewhere(ImagePtrLabel, line, r.value)
  {
    FieldValue(ImagePtrLabel, line)
  }
}
