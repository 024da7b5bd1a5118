/**
 * `convert_channel_link_to_chat_id` (bot.py:156-178): turns whatever an
 * administrator typed as the review channel (a numeric chat id, an `@name`, a
 * `t.me/` link or a bare name) into the form the chat platform accepts.
 */
module ChatLink {
  import opened Text

  const TmePrefix: string := "t.me/"

  /** A numeric chat id: a minus sign followed by ASCII digits. */
  predicate IsNumericId(s: string) {
    StartsWith(s, "-") && IsDigits(s[1..])
  }

  function AddAt(name: string): (r: string)
    ensures StartsWith(r, "@")
  {
    if StartsWith(name, "@") then name else "@" + name
  }

  /** The channel name a `t.me/` link points to: after the last `t.me/`, before any `?` or `#`. */
  function LinkName(link: string): string {
    SplitFirst(SplitFirst(SplitLast(link, TmePrefix), '?'), '#')
  }

  /** `convert_channel_link_to_chat_id`. */
  function ConvertChannelLink(link: string): (r: string)
    ensures IsNumericId(r) || StartsWith(r, "@")
    ensures IsNumericId(link) ==> r == link
  {
    if IsNumericId(link) then link
    else if Find(link, TmePrefix).Some? then AddAt(LinkName(link))
    else if StartsWith(link, "@") then link
    else "@" + link
  }

  /** A name already written with `@`, and not a link, is kept as it is. */
  lemma AtNameUnchanged(link: string)
    requires StartsWith(link, "@")
    requires forall j: nat :: !OccursAt(link, TmePrefix, j)
    ensures ConvertChannelLink(link) == link
  {
    assert link[0] == '@';
  }

  /** Any other name without a link gets an `@` in front. */
  lemma BareNamePrefixed(link: string)
    requires !IsNumericId(link) && !StartsWith(link, "@")
    requires forall j: nat :: !OccursAt(link, TmePrefix, j)
    ensures ConvertChannelLink(link) == "@" + link
  {
  }

  /**
   * A link `<scheme>t.me/<name><query>` gives `@<name>`, with no doubled `@`,
   * whatever the scheme (`https://`, `http://`, nothing, or another `t.me/`
   * link), when the name holds no `/`, `?` or `#`, and the query is empty or
   * starts with `?` or `#` and holds no further `t.me/`.
   */
  lemma {:induction false} TmeLinkGivesName(scheme: string, name: string, query: string)
    requires '/' !in name && '?' !in name && '#' !in name
    requires forall j: nat :: !OccursAt(query, TmePrefix, j)
    requires query == [] || query[0] == '?' || query[0] == '#'
    ensures ConvertChannelLink(scheme + TmePrefix + name + query) == AddAt(name)
  {
    var link := scheme + TmePrefix + name + query;
    assert link == scheme + TmePrefix + (name + query);
    NoLinkAcross(name, query);
    LinkParts(scheme, name + query);
    CutQuery(name, query);
  }

  /** The usual form of the link, with the `https://` scheme. */
  lemma HttpsLinkGivesName(name: string)
    requires '/' !in name && '?' !in name && '#' !in name
    ensures ConvertChannelLink("https://t.me/" + name) == AddAt(name)
  {
    var scheme := "https://";
    assert scheme + TmePrefix == "https://t.me/";
    assert scheme + TmePrefix + name + [] == "https://t.me/" + name;
    TmeLinkGivesName(scheme, name, []);
  }

  /**
   * `<scheme>t.me/<rest>` holds `t.me/` right after the scheme, and it is not a
   * numeric id: with no scheme it starts with `t`; otherwise the character at
   * position `|scheme| + 1` is the `.` of `t.me/`, so the text after its first
   * character is not all digits.
   */
  lemma LinkNotNumeric(scheme: string, rest: string)
    ensures !IsNumericId(scheme + TmePrefix + rest)
    ensures OccursAt(scheme + TmePrefix + rest, TmePrefix, |scheme|)
  {
    var link := scheme + TmePrefix + rest;
    assert link[|scheme|..|scheme| + |TmePrefix|] == TmePrefix;
    if scheme == [] {
      assert link[0] == 't';
    } else {
      assert link[1..][|scheme|] == '.';
    }
  }

  /**
   * The part after the last `t.me/` of `<a>t.me/<rest>`, when the rest holds no
   * `t.me/`, is the rest: an earlier occurrence cannot overlap the one after `a`,
   * since `t.me/` has no proper prefix that is also a suffix.
   */
  lemma {:induction false} SplitLastTail(a: string, rest: string)
    requires forall j: nat :: !OccursAt(rest, TmePrefix, j)
    ensures SplitLast(a + TmePrefix + rest, TmePrefix) == rest
    decreases |a|
  {
    var s := a + TmePrefix + rest;
    LinkNotNumeric(a, rest);
    var i := Find(s, TmePrefix).value;
    assert i <= |a|;
    LinkTail(a, rest, i);
    if i < |a| {
      NoOverlap(s, i, |a|);
      SplitLastTail(a[i + |TmePrefix|..], rest);
    }
  }

  /** Two occurrences of `t.me/` never overlap. */
  lemma NoOverlap(s: string, i: nat, k: nat)
    requires OccursAt(s, TmePrefix, i) && OccursAt(s, TmePrefix, k) && i < k
    ensures i + |TmePrefix| <= k
  {
    LinkChars(s, i);
    LinkChars(s, k);
  }

  /** What follows position `m` of `<a>t.me/<rest>`. */
  lemma LinkTail(a: string, rest: string, m: nat)
    requires m <= |a|
    ensures m + |TmePrefix| <= |a| ==> (a + TmePrefix + rest)[m + |TmePrefix|..] == a[m + |TmePrefix|..] + TmePrefix + rest
    ensures (a + TmePrefix + rest)[|a| + |TmePrefix|..] == rest
  {
    var s := a + TmePrefix + rest;
    if m + |TmePrefix| <= |a| {
      assert s[m + |TmePrefix|..] == a[m + |TmePrefix|..] + TmePrefix + rest;
    }
  }

  /** The characters of an occurrence of `t.me/`. */
  lemma LinkChars(s: string, i: nat)
    requires OccursAt(s, TmePrefix, i)
    ensures s[i] == 't' && s[i + 1] == '.' && s[i + 2] == 'm' && s[i + 3] == 'e' && s[i + 4] == '/'
  {
    var t := s[i..i + |TmePrefix|];
    assert t == TmePrefix;
    assert s[i] == t[0] && s[i + 1] == t[1] && s[i + 2] == t[2] && s[i + 3] == t[3] && s[i + 4] == t[4];
  }

  /** In `<scheme>t.me/<rest>`, with no `t.me/` in the rest, the name part is the rest. */
  lemma LinkParts(scheme: string, rest: string)
    requires forall j: nat :: !OccursAt(rest, TmePrefix, j)
    ensures !IsNumericId(scheme + TmePrefix + rest)
    ensures Find(scheme + TmePrefix + rest, TmePrefix).Some?
    ensures SplitLast(scheme + TmePrefix + rest, TmePrefix) == rest
  {
    LinkNotNumeric(scheme, rest);
    SplitLastTail(scheme, rest);
  }

  /**
   * No `t.me/` runs from a name without `/` into a query that starts with `?`
   * or `#`, so `<name><query>` holds one only where the query does.
   */
  lemma NoLinkAcross(name: string, query: string)
    requires '/' !in name
    requires forall j: nat :: !OccursAt(query, TmePrefix, j)
    requires query == [] || query[0] == '?' || query[0] == '#'
    ensures forall j: nat :: !OccursAt(name + query, TmePrefix, j)
  {
    var s := name + query;
    forall j: nat | OccursAt(s, TmePrefix, j) ensures false {
      LinkChars(s, j);
      if j >= |name| {
        assert s[j..j + |TmePrefix|] == query[j - |name|..j - |name| + |TmePrefix|];
        assert OccursAt(query, TmePrefix, j - |name|);
      }
    }
  }

  /** Cutting `<name><query>` at `?` and then at `#` leaves the name. */
  lemma CutQuery(name: string, query: string)
    requires '?' !in name && '#' !in name
    requires query == [] || query[0] == '?' || query[0] == '#'
    ensures SplitFirst(SplitFirst(name + query, '?'), '#') == name
  {
    SplitFirstAppend(name, query, '?');
    var q1 := SplitFirst(query, '?');
    assert q1 == [] || q1[0] == '#';
    SplitFirstAppend(name, q1, '#');
    assert SplitFirst(q1, '#') == [];
    assert name + [] == name;
  }

  /** The result never holds a `t.me/` link. */
  lemma ResultHasNoLink(link: string)
    ensures forall j: nat :: !OccursAt(ConvertChannelLink(link), TmePrefix, j)
  {
    var r := ConvertChannelLink(link);
    if IsNumericId(link) {
      NoOccurrenceWithout(r, TmePrefix, 't');
    } else if Find(link, TmePrefix).Some? {
      var name := LinkName(link);
      var s := SplitLast(link, TmePrefix);
      var s1 := SplitFirst(s, '?');
      PrefixKeepsNoOccurrence(s, s1);
      PrefixKeepsNoOccurrence(s1, name);
      AtKeepsNoOccurrence(name);
    } else if !StartsWith(link, "@") {
      AtKeepsNoOccurrence(link);
    }
  }

  lemma PrefixKeepsNoOccurrence(s: string, t: string)
    requires |t| <= |s| && t == s[..|t|]
    requires forall j: nat :: !OccursAt(s, TmePrefix, j)
    ensures forall j: nat :: !OccursAt(t, TmePrefix, j)
  {
    forall j: nat
      ensures !OccursAt(t, TmePrefix, j)
    {
      if j + |TmePrefix| <= |t| {
        assert t[j..j + |TmePrefix|] == s[j..j + |TmePrefix|];
        assert !OccursAt(s, TmePrefix, j);
      }
    }
  }

  lemma AtKeepsNoOccurrence(s: string)
    requires forall j: nat :: !OccursAt(s, TmePrefix, j)
    ensures forall j: nat :: !OccursAt("@" + s, TmePrefix, j)
  {
    var t := "@" + s;
    assert t[1..] == s;
    ShiftOccurs(t, TmePrefix);
    forall j: nat
      ensures !OccursAt(t, TmePrefix, j)
    {
      if j == 0 {
        if |TmePrefix| <= |t| {
          assert t[0..|TmePrefix|][0] == '@';
        }
      } else {
        assert !OccursAt(s, TmePrefix, j - 1);
      }
    }
  }

  /** Converting a converted destination changes nothing. */
  lemma ConvertIdempotent(link: string)
    ensures ConvertChannelLink(ConvertChannelLink(link)) == ConvertChannelLink(link)
  {
    var r := ConvertChannelLink(link);
    ResultHasNoLink(link);
    if !IsNumericId(r) {
      assert Find(r, TmePrefix) == None;
    }
  }
}
