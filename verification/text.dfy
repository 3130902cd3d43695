/** Whitespace removal as the builders apply it to IBANs: the string is split into fields around
    white space, and the fields are joined with nothing between them. */
module Text {

  /** The characters Go's `unicode.IsSpace` reports: '\t', '\n', '\v', '\f', '\r', ' ', U+0085 and
      U+00A0, and beyond Latin-1 the other characters of Unicode's White_Space property. */
  predicate IsSpace(c: char) {
    c == '\t' || c == '\n' || c == '\U{0B}' || c == '\U{0C}' || c == '\r' || c == ' '
    || c == '\U{85}' || c == '\U{A0}' || c == '\U{1680}'
    || ('\U{2000}' <= c <= '\U{200A}')
    || c == '\U{2028}' || c == '\U{2029}' || c == '\U{202F}' || c == '\U{205F}' || c == '\U{3000}'
  }

  predicate NoSpace(s: string) {
    forall i :: 0 <= i < |s| ==> !IsSpace(s[i])
  }

  /** The fields of `s` after a partly read field `cur`: maximal runs of non-space characters. */
  function FieldsFrom(s: string, cur: string): (fs: seq<string>)
    requires NoSpace(cur)
    ensures forall i :: 0 <= i < |fs| ==> |fs[i]| > 0 && NoSpace(fs[i])
    decreases |s|
  {
    if |s| == 0 then (if |cur| == 0 then [] else [cur])
    else if IsSpace(s[0]) then (if |cur| == 0 then [] else [cur]) + FieldsFrom(s[1..], "")
    else FieldsFrom(s[1..], cur + [s[0]])
  }

  /** `strings.Fields`: the non-empty runs of non-space characters of `s`, in order. */
  function Fields(s: string): seq<string>
  {
    FieldsFrom(s, "")
  }

  /** `strings.Join(parts, "")`. */
  function Concat(parts: seq<string>): string
  {
    if |parts| == 0 then "" else parts[0] + Concat(parts[1..])
  }

  /** The reference: `s` with every space character dropped and the others kept in order. */
  function RemoveSpace(s: string): string
    decreases |s|
  {
    if |s| == 0 then ""
    else if IsSpace(s[0]) then RemoveSpace(s[1..])
    else [s[0]] + RemoveSpace(s[1..])
  }

  lemma ConcatAppend(a: seq<string>, b: seq<string>)
    ensures Concat(a + b) == Concat(a) + Concat(b)
  {
    if |a| > 0 {
      assert (a + b)[1..] == a[1..] + b;
      ConcatAppend(a[1..], b);
    } else {
      assert a + b == b;
    }
  }

  lemma {:induction false} FieldsFromJoin(s: string, cur: string)
    requires NoSpace(cur)
    ensures Concat(FieldsFrom(s, cur)) == cur + RemoveSpace(s)
    decreases |s|
  {
    if |s| == 0 {
      assert Concat([cur]) == cur + Concat([]);
    } else if IsSpace(s[0]) {
      FieldsFromJoin(s[1..], "");
      JoinAtSpace(s, cur);
    } else {
      NoSpaceSnoc(cur, s[0]);
      FieldsFromJoin(s[1..], cur + [s[0]]);
      assert cur + [s[0]] + RemoveSpace(s[1..]) == cur + ([s[0]] + RemoveSpace(s[1..]));
    }
  }

  lemma NoSpaceSnoc(cur: string, c: char)
    requires NoSpace(cur) && !IsSpace(c)
    ensures NoSpace(cur + [c])
  {
    assert forall i :: 0 <= i < |cur| ==> (cur + [c])[i] == cur[i];
  }

  /** At a space, the field read so far is closed and the rest is split afresh. */
  lemma JoinAtSpace(s: string, cur: string)
    requires |s| > 0 && IsSpace(s[0]) && NoSpace(cur)
    requires Concat(FieldsFrom(s[1..], "")) == RemoveSpace(s[1..])
    ensures Concat(FieldsFrom(s, cur)) == cur + RemoveSpace(s)
  {
    var head: seq<string> := if |cur| == 0 then [] else [cur];
    assert Concat(head) == cur by {
      if |cur| > 0 { assert Concat([cur]) == cur + Concat([]); }
    }
    assert FieldsFrom(s, cur) == head + FieldsFrom(s[1..], "");
    ConcatAppend(head, FieldsFrom(s[1..], ""));
  }

  /** `strings.Join(strings.Fields(s), "")`: `s` with all its white space removed. */
  function StripSpace(s: string): (r: string)
    ensures r == RemoveSpace(s)
  {
    FieldsFromJoin(s, "");
    Concat(Fields(s))
  }

  lemma {:induction false} RemoveSpaceNoSpace(s: string)
    ensures NoSpace(RemoveSpace(s))
    ensures |RemoveSpace(s)| <= |s|
    decreases |s|
  {
    if |s| > 0 {
      RemoveSpaceNoSpace(s[1..]);
    }
  }

  /** A string without white space is left as it is. */
  lemma {:induction false} RemoveSpaceKeeps(s: string)
    requires NoSpace(s)
    ensures RemoveSpace(s) == s
    decreases |s|
  {
    if |s| > 0 {
      assert !IsSpace(s[0]);
      RemoveSpaceKeeps(s[1..]);
      assert [s[0]] + s[1..] == s;
    }
  }

  lemma {:induction false} RemoveSpaceAppend(a: string, b: string)
    ensures RemoveSpace(a + b) == RemoveSpace(a) + RemoveSpace(b)
    decreases |a|
  {
    if |a| > 0 {
      assert (a + b)[0] == a[0];
      assert (a + b)[1..] == a[1..] + b;
      RemoveSpaceAppend(a[1..], b);
    } else {
      assert a + b == b;
    }
  }

  /** Removing white space leaves no white space, keeps every other character in order (what is
      removed from a concatenation is removed from each part), and is idempotent. */
  lemma StripSpaceProperties(s: string, t: string)
    ensures NoSpace(StripSpace(s)) && |StripSpace(s)| <= |s|
    ensures StripSpace(s + t) == StripSpace(s) + StripSpace(t)
    ensures StripSpace(StripSpace(s)) == StripSpace(s)
    ensures NoSpace(s) ==> StripSpace(s) == s
  {
    RemoveSpaceNoSpace(s);
    RemoveSpaceAppend(s, t);
    RemoveSpaceKeeps(RemoveSpace(s));
    if NoSpace(s) { RemoveSpaceKeeps(s); }
  }

  /** A single white-space character between two strings disappears. */
  lemma StripSpaceDropsSpace(a: string, c: char, b: string)
    requires IsSpace(c)
    ensures StripSpace(a + [c] + b) == StripSpace(a) + StripSpace(b)
  {
    RemoveSpaceAppend(a + [c], b);
    RemoveSpaceAppend(a, [c]);
    assert RemoveSpace([c]) == "" by { assert [c][1..] == ""; }
  }
}
