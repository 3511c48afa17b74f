/**
  * The profile popover's two derived texts: the name shown for the user
  * and the role shown beneath it, turned from `snake_case` into words.
  */
module ProfilePopover {
  import opened Wrappers
  import opened Strings

  /** The user the popover is given: any object, whose `name` and `role` may be missing. */
  datatype PopoverUser = PopoverUser(name: Option<string>, role: Option<string>)

  /** `user?.name ?? 'User'`: only a missing user or name falls back; an empty name is shown as it is. */
  function DisplayName(user: Option<PopoverUser>): (shown: string)
    ensures user.None? || user.value.name.None? ==> shown == "User"
    ensures user.Some? && user.value.name.Some? ==> shown == user.value.name.value
  {
    if user.Some? && user.value.name.Some? then user.value.name.value else "User"
  }

  /** `toUpperCase` on one character, for the ASCII letters. */
  function Upper(c: char): (u: char)
    ensures 'a' <= c <= 'z' ==> u as int == c as int - 32
    ensures !('a' <= c <= 'z') ==> u == c
  {
    if 'a' <= c <= 'z' then (c as int - 32) as char else c
  }

  /** `w.charAt(0).toUpperCase() + w.slice(1)`: an empty word stays empty. */
  function Capitalize(w: string): (r: string)
    ensures |r| == |w|
    ensures w != [] ==> r[0] == Upper(w[0]) && r[1..] == w[1..]
  {
    if w == [] then [] else [Upper(w[0])] + w[1..]
  }

  /** `words.map(capitalize)`. */
  function CapitalizeAll(words: seq<string>): (r: seq<string>)
    ensures |r| == |words|
    ensures forall k :: 0 <= k < |words| ==> r[k] == Capitalize(words[k])
    decreases |words|
  {
    if words == [] then [] else [Capitalize(words[0])] + CapitalizeAll(words[1..])
  }

  /**
    * `formatRole`: a missing or empty role reads "Field Engineer"; any other
    * role is split on `_`, each segment capitalised, and the segments joined
    * with spaces.
    */
  function FormatRole(role: Option<string>): (shown: string)
    ensures role.None? || role == Some([]) ==> shown == "Field Engineer"
    ensures role.Some? && role.value != [] ==> shown == FormatChars(role.value, true)
  {
    if role.None? || role.value == [] then "Field Engineer"
    else
      var words := Split(role.value, '_');
      JoinedHead(words);
      SegmentsAsChars(role.value, true);
      Join(CapitalizeAll(words), ' ')
  }

  /** Character `i` of `s` opens a segment: it is first, or follows an underscore. */
  predicate OpensSegment(s: string, i: nat, atStart: bool)
    requires i < |s|
  {
    if i == 0 then atStart else s[i - 1] == '_'
  }

  /**
    * The same text, character by character: every `_` becomes a space, the
    * first character of each segment is upper-cased, and the rest is kept.
    * `atStart` says whether the first character opens a segment.
    */
  function FormatChars(s: string, atStart: bool): (r: string)
    ensures |r| == |s|
    ensures forall i :: 0 <= i < |s| && s[i] == '_' ==> r[i] == ' '
    ensures forall i :: 0 <= i < |s| && s[i] != '_' && OpensSegment(s, i, atStart) ==> r[i] == Upper(s[i])
    ensures forall i :: 0 <= i < |s| && s[i] != '_' && !OpensSegment(s, i, atStart) ==> r[i] == s[i]
    decreases |s|
  {
    if s == [] then []
    else
      var rest := FormatChars(s[1..], s[0] == '_');
      var r := [if s[0] == '_' then ' ' else if atStart then Upper(s[0]) else s[0]] + rest;
      assert forall i :: 1 <= i < |s| ==>
        r[i] == rest[i - 1] && s[i] == s[1..][i - 1] &&
        OpensSegment(s, i, atStart) == OpensSegment(s[1..], i - 1, s[0] == '_');
      r
  }

  /** What follows the first word in the joined, capitalised words. */
  function JoinedTail(words: seq<string>): string
    requires |words| >= 1
  {
    if |words| == 1 then [] else [' '] + Join(CapitalizeAll(words[1..]), ' ')
  }

  /** The joined, capitalised words are the first one capitalised, then the rest. */
  lemma {:induction false} JoinedHead(words: seq<string>)
    requires |words| >= 1
    ensures Join(CapitalizeAll(words), ' ') == Capitalize(words[0]) + JoinedTail(words)
  {
    var caps := CapitalizeAll(words);
    if |words| > 1 {
      var tail := Join(CapitalizeAll(words[1..]), ' ');
      assert caps[1..] == CapitalizeAll(words[1..]);
      assert Join(caps, ' ') == caps[0] + [' '] + tail;
      assert caps[0] + [' '] + tail == caps[0] + ([' '] + tail);
    } else {
      assert Capitalize(words[0]) + [] == Capitalize(words[0]);
    }
  }

  /** The split-map-join text of `s`, its first word capitalised or not, is the character-wise text. */
  lemma {:induction false} SegmentsAsChars(s: string, atStart: bool)
    ensures var words := Split(s, '_');
            (if atStart then Capitalize(words[0]) else words[0]) + JoinedTail(words) == FormatChars(s, atStart)
    decreases |s|
  {
    if s != [] {
      var words := Split(s, '_');
      var rest := Split(s[1..], '_');
      SegmentsAsChars(s[1..], s[0] == '_');
      if s[0] == '_' {
        assert words == [[]] + rest;
        assert words[1..] == rest;
        JoinedHead(rest);
        assert JoinedTail(words) == [' '] + Join(CapitalizeAll(rest), ' ');
      } else {
        assert words == [[s[0]] + rest[0]] + rest[1..];
        assert JoinedTail(words) == JoinedTail(rest) by {
          if |rest| > 1 {
            assert words[1..] == rest[1..];
          }
        }
        if atStart {
          assert Capitalize(words[0]) == [Upper(s[0])] + rest[0];
        }
      }
    }
  }

  /**
    * The role text of a non-empty role keeps its length; each `_` becomes a
    * space at the same position; the first character of each segment is
    * upper-cased and every other character kept.
    */
  lemma FormatRoleShape(role: string)
    requires role != []
    ensures var shown := FormatRole(Some(role));
            |shown| == |role| &&
            (forall i :: 0 <= i < |role| && role[i] == '_' ==> shown[i] == ' ') &&
            (forall i :: 0 <= i < |role| && role[i] != '_' && OpensSegment(role, i, true) ==> shown[i] == Upper(role[i])) &&
            (forall i :: 0 <= i < |role| && role[i] != '_' && !OpensSegment(role, i, true) ==> shown[i] == role[i])
  {
  }

  /** Splitting the shown role on spaces gives back the capitalised segments, for a role without spaces. */
  lemma FormatRoleWords(role: string)
    requires role != [] && ' ' !in role
    ensures Split(FormatRole(Some(role)), ' ') == CapitalizeAll(Split(role, '_'))
  {
    var words := Split(role, '_');
    var caps := CapitalizeAll(words);
    JoinSplit(role, '_');
    forall k | 0 <= k < |caps| ensures ' ' !in caps[k] {
      WordInRole(words, k, '_');
      assert ' ' !in words[k];
    }
    SplitJoin(caps, ' ');
  }

  /** Each part of a split is a piece of the string split, so it holds no character the string lacks. */
  lemma {:induction false} WordInRole(parts: seq<string>, k: nat, sep: char)
    requires |parts| >= 1 && k < |parts|
    ensures forall c :: c in parts[k] ==> c in Join(parts, sep)
    decreases |parts|
  {
    if |parts| > 1 && k > 0 {
      WordInRole(parts[1..], k - 1, sep);
    }
  }

  /** Doubled underscores make an empty word: `a__b` reads `A  B`. */
  lemma DoubledUnderscore()
    ensures FormatRole(Some("a__b")) == "A  B"
  {
    var shown := FormatRole(Some("a__b"));
    FormatRoleShape("a__b");
    assert OpensSegment("a__b", 0, true) && OpensSegment("a__b", 3, true);
    assert shown[0] == 'A' && shown[1] == ' ' && shown[2] == ' ' && shown[3] == 'B';
  }
}
