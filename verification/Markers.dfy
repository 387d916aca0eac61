/** The reconciliation markers that replay writes into server-visible text, and the argument
    that a marker found in that text can only have been written by the event it names. */
module Markers {
  import opened Prelude

  /** The token that opens every bracketed marker. Declared text may not contain it. */
  const SENTINEL := "[bzr-live:"

  predicate IsLower(c: char) { 'a' <= c <= 'z' }

  predicate IsDigit(c: char) { '0' <= c <= '9' }

  /** The slug grammar `[a-z][a-z0-9-]{0,62}` of every scenario and event name. */
  predicate IsSlug(s: string)
  {
    && 1 <= |s| <= 63
    && IsLower(s[0])
    && forall i | 0 <= i < |s| :: IsLower(s[i]) || IsDigit(s[i]) || s[i] == '-'
  }

  predicate IsHex(s: string)
  {
    |s| > 0 && forall i | 0 <= i < |s| :: IsDigit(s[i]) || 'a' <= s[i] <= 'f'
  }

  function Marker(scenario: string, event: string): string
  {
    "bzr-live:" + scenario + ":" + event
  }

  function Token(marker: string): string
  {
    "[" + marker + "]"
  }

  function RenderMarker(text: string, marker: string): string
  {
    text + "\n\n" + Token(marker)
  }

  function RenderAttachmentSummary(description: string, marker: string, sha256: string): string
  {
    Strip(description + " " + Token(marker) + " sha256=" + sha256)
  }

  /** What Python's `str.strip` removes: the characters `str.isspace` accepts. */
  predicate IsSpace(c: char)
  {
    || '\U{9}' <= c <= '\U{D}' || '\U{1C}' <= c <= '\U{20}'
    || c == '\U{85}' || c == '\U{A0}' || c == '\U{1680}'
    || '\U{2000}' <= c <= '\U{200A}'
    || c == '\U{2028}' || c == '\U{2029}' || c == '\U{202F}' || c == '\U{205F}' || c == '\U{3000}'
  }

  function StripLeft(s: string): string
  {
    if s != "" && IsSpace(s[0]) then StripLeft(s[1..]) else s
  }

  function StripRight(s: string): string
  {
    if s != "" && IsSpace(s[|s| - 1]) then StripRight(s[..|s| - 1]) else s
  }

  function Strip(s: string): string
  {
    StripRight(StripLeft(s))
  }

  /** `_reject_embedded_marker`: the texts replay agrees to send. */
  predicate Unmarked(text: string)
  {
    !Contains(text, SENTINEL)
  }

  // ----- An occurrence of a token starts with an occurrence of the sentinel -----

  lemma TokenStartsWithSentinel(text: string, scenario: string, event: string, at: nat)
    requires OccursAt(text, Token(Marker(scenario, event)), at)
    ensures OccursAt(text, SENTINEL, at)
  {
    var token := Token(Marker(scenario, event));
    assert token[..|SENTINEL|] == SENTINEL;
    assert text[at..at + |SENTINEL|] == text[at..at + |token|][..|SENTINEL|];
  }

  /** Text that passed the guard carries no event's marker. */
  lemma UnmarkedHasNoToken(text: string, scenario: string, event: string)
    requires Unmarked(text)
    ensures !Contains(text, Token(Marker(scenario, event)))
  {
    forall at: nat | at <= |text| && OccursAt(text, Token(Marker(scenario, event)), at)
      ensures false
    {
      TokenStartsWithSentinel(text, scenario, event, at);
    }
  }

  /** Two slug-built markers are equal only when both names are. */
  lemma MarkerInjective(s1: string, e1: string, s2: string, e2: string)
    requires IsSlug(s1) && IsSlug(e1) && IsSlug(s2) && IsSlug(e2)
    requires Marker(s1, e1) == Marker(s2, e2)
    ensures s1 == s2 && e1 == e2
  {
    var m1, m2 := Marker(s1, e1), Marker(s2, e2);
    assert m1[9..9 + |s1|] == s1 && m2[9..9 + |s2|] == s2;
    assert m1[9 + |s1|] == ':' && m2[9 + |s2|] == ':';
    assert forall i | 0 <= i < |s1| :: s1[i] != ':' && m1[9 + i] == s1[i];
    assert forall i | 0 <= i < |s2| :: s2[i] != ':' && m2[9 + i] == s2[i];
    assert m1[10 + |s1|..] == e1 && m2[10 + |s2|..] == e2;
  }

  /** The characters of a marker built from slugs: never a bracket. */
  lemma MarkerHasNoBracket(scenario: string, event: string, i: nat)
    requires IsSlug(scenario) && IsSlug(event)
    requires i < |Marker(scenario, event)|
    ensures Marker(scenario, event)[i] != '[' && Marker(scenario, event)[i] != ']'
  {
    var m := Marker(scenario, event);
    assert m == "bzr-live:" + scenario + (":" + event);
    if 9 <= i < 9 + |scenario| {
      assert m[i] == scenario[i - 9];
    } else if i >= 10 + |scenario| {
      assert m[i] == event[i - 10 - |scenario|];
    }
  }

  /** A token that starts exactly where another token stands is that token. */
  lemma TokenDeterminesMarker(s1: string, e1: string, s2: string, e2: string, tail: string)
    requires IsSlug(s1) && IsSlug(e1) && IsSlug(s2) && IsSlug(e2)
    requires OccursAt(Token(Marker(s2, e2)) + tail, Token(Marker(s1, e1)), 0)
    ensures s1 == s2 && e1 == e2
  {
    var m1, m2 := Marker(s1, e1), Marker(s2, e2);
    var text := Token(m2) + tail;
    assert text[..|Token(m1)|] == Token(m1);
    forall i | 0 <= i < |m1|
      ensures text[i + 1] == m1[i]
    {
      assert Token(m1)[i + 1] == m1[i];
    }
    assert Token(m1)[|m1| + 1] == ']';
    forall i | 0 <= i < |m1| ensures m1[i] != ']' { MarkerHasNoBracket(s1, e1, i); }
    forall i | 0 <= i < |m2| ensures m2[i] != ']' && text[i + 1] == m2[i] {
      MarkerHasNoBracket(s2, e2, i);
    }
    assert text[|m2| + 1] == ']';
    assert m1 == m2 by {
      forall i | 0 <= i < |m1| ensures m1[i] == m2[i] {
        assert text[i + 1] == m2[i];
      }
    }
    MarkerInjective(s1, e1, s2, e2);
  }

  /** The shape both renderers produce: unmarked text, a separator that cannot be part of the
      sentinel, the token, and a tail without an opening bracket. */
  ghost predicate Rendered(text: string, head: string, scenario: string, event: string, tail: string)
  {
    && text == head + Token(Marker(scenario, event)) + tail
    && Unmarked(head)
    && (head == "" || head[|head| - 1] == ' ' || head[|head| - 1] == '\n')
    && (forall i | 0 <= i < |tail| :: tail[i] != '[')
  }

  lemma OccursWithin(head: string, rest: string, at: nat)
    requires OccursAt(head + rest, SENTINEL, at)
    ensures at + |SENTINEL| <= |head| ==> OccursAt(head, SENTINEL, at)
    ensures at < |head| < at + |SENTINEL| ==> SENTINEL[|head| - 1 - at] == head[|head| - 1]
  {
    var found := (head + rest)[at..at + |SENTINEL|];
    if at + |SENTINEL| <= |head| {
      assert head[at..at + |SENTINEL|] == found;
    } else if at < |head| {
      assert SENTINEL[|head| - 1 - at] == found[|head| - 1 - at];
    }
  }

  /** The sentinel is not in the unmarked text and does not reach across the separator. */
  lemma NotBeforeToken(head: string, rest: string, at: nat)
    requires Unmarked(head)
    requires head == "" || head[|head| - 1] == ' ' || head[|head| - 1] == '\n'
    requires OccursAt(head + rest, SENTINEL, at)
    ensures at >= |head|
  {
    assert forall k | 0 <= k < |SENTINEL| :: SENTINEL[k] != ' ' && SENTINEL[k] != '\n';
    OccursWithin(head, rest, at);
  }

  /** The sentinel occurs in rendered text only where the renderer put it. */
  lemma SentinelOnlyAtToken(text: string, head: string, scenario: string, event: string, tail: string, at: nat)
    requires IsSlug(scenario) && IsSlug(event)
    requires Rendered(text, head, scenario, event, tail)
    requires OccursAt(text, SENTINEL, at)
    ensures at == |head|
  {
    hide IsSlug, Marker;
    var m := Marker(scenario, event);
    assert text[at] == text[at..at + |SENTINEL|][0] == '[';
    assert text == head + (Token(m) + tail);
    assert forall k | |head| <= k < |text| :: text[k] == (Token(m) + tail)[k - |head|];
    NotBeforeToken(head, Token(m) + tail, at);
    forall k | 1 <= k < |Token(m)| + |tail|
      ensures (Token(m) + tail)[k] != '['
    {
      if k <= |m| {
        MarkerHasNoBracket(scenario, event, k - 1);
      }
    }
  }

  /** Text rendered for one event carries another event's token exactly when the two events
      are the same event of the same scenario. */
  lemma TokenInRendered(text: string, head: string, scenario: string, event: string, tail: string,
                        otherScenario: string, otherEvent: string)
    requires IsSlug(scenario) && IsSlug(event) && IsSlug(otherScenario) && IsSlug(otherEvent)
    requires Rendered(text, head, scenario, event, tail)
    ensures Contains(text, Token(Marker(otherScenario, otherEvent)))
         <==> scenario == otherScenario && event == otherEvent
  {
    hide IsSlug, Marker;
    var token := Token(Marker(scenario, event));
    var other := Token(Marker(otherScenario, otherEvent));
    if scenario == otherScenario && event == otherEvent {
      assert text[|head|..|head| + |token|] == token;
      assert OccursAt(text, token, |head|);
    }
    if Contains(text, other) {
      var at: nat :| at <= |text| && OccursAt(text, other, at);
      TokenStartsWithSentinel(text, otherScenario, otherEvent, at);
      SentinelOnlyAtToken(text, head, scenario, event, tail, at);
      var rest := token + tail;
      assert text[at..] == rest;
      assert rest[..|other|] == text[at..at + |other|];
      assert OccursAt(rest, other, 0);
      TokenDeterminesMarker(otherScenario, otherEvent, scenario, event, tail);
    }
  }

  // ----- The two renderers have that shape -----

  lemma UnmarkedPlusSeparator(text: string, separator: string)
    requires Unmarked(text)
    requires separator == " " || separator == "\n\n"
    ensures Unmarked(text + separator)
  {
    var whole := text + separator;
    forall at: nat | at <= |whole| && OccursAt(whole, SENTINEL, at)
      ensures false
    {
      assert whole[at + 9] == whole[at..at + |SENTINEL|][9] == ':';
      if at + |SENTINEL| <= |text| {
        assert text[at..at + |SENTINEL|] == whole[at..at + |SENTINEL|];
        assert OccursAt(text, SENTINEL, at);
      }
    }
  }

  lemma {:induction false} StripLeftIsSuffix(s: string) returns (k: nat)
    ensures k <= |s| && StripLeft(s) == s[k..]
    ensures forall i :: 0 <= i < k ==> IsSpace(s[i])
  {
    if s != "" && IsSpace(s[0]) {
      var rest := StripLeftIsSuffix(s[1..]);
      k := rest + 1;
      assert s[1..][rest..] == s[k..];
      forall i | 0 <= i < k ensures IsSpace(s[i]) {
        if i > 0 { assert s[i] == s[1..][i - 1]; }
      }
    } else {
      k := 0;
      assert s[0..] == s;
    }
  }

  lemma UnmarkedSuffix(s: string, k: nat)
    requires k <= |s| && Unmarked(s)
    ensures Unmarked(s[k..])
  {
    forall at: nat | at <= |s[k..]| && OccursAt(s[k..], SENTINEL, at)
      ensures false
    {
      assert s[k + at..k + at + |SENTINEL|] == s[k..][at..at + |SENTINEL|];
      assert OccursAt(s, SENTINEL, k + at);
    }
  }

  lemma RenderMarkerShape(text: string, scenario: string, event: string)
    requires Unmarked(text)
    ensures Rendered(RenderMarker(text, Marker(scenario, event)), text + "\n\n", scenario, event, "")
  {
    UnmarkedPlusSeparator(text, "\n\n");
    var token := Token(Marker(scenario, event));
    assert text + "\n\n" + token == text + "\n\n" + token + "";
  }

  /** Stripping removes leading space of the description and never touches the token. */
  lemma RenderSummaryShape(description: string, scenario: string, event: string, sha256: string)
    returns (head: string)
    requires IsSlug(scenario) && IsSlug(event)
    requires Unmarked(description) && IsHex(sha256)
    ensures Rendered(RenderAttachmentSummary(description, Marker(scenario, event), sha256),
                     head, scenario, event, " sha256=" + sha256)
  {
    var token := Token(Marker(scenario, event));
    var tail := " sha256=" + sha256;
    var whole := description + " " + token + " sha256=" + sha256;
    assert whole == (description + " ") + token + tail;
    UnmarkedPlusSeparator(description, " ");
    var k := StripLeftIsSuffix(whole);
    assert whole[|description| + 1] == token[0] == '[';
    assert k <= |description| + 1;
    head := (description + " ")[k..];
    UnmarkedSuffix(description + " ", k);
    assert whole[k..] == head + token + tail;
    assert !IsSpace(sha256[|sha256| - 1]);
    assert whole[k..][|whole[k..]| - 1] == sha256[|sha256| - 1];
    assert StripRight(whole[k..]) == whole[k..];
    assert forall i | 0 <= i < |tail| :: tail[i] != '[' by {
      forall i | 0 <= i < |tail| ensures tail[i] != '[' {
        if i >= 8 { assert tail[i] == sha256[i - 8]; }
      }
    }
  }

  /** A comment rendered for one event answers another event's marker query exactly when the
      two are the same event. */
  lemma CommentMarkerUnique(body: string, scenario: string, event: string,
                            otherScenario: string, otherEvent: string)
    requires IsSlug(scenario) && IsSlug(event) && IsSlug(otherScenario) && IsSlug(otherEvent)
    requires Unmarked(body)
    ensures Contains(RenderMarker(body, Marker(scenario, event)), Token(Marker(otherScenario, otherEvent)))
         <==> scenario == otherScenario && event == otherEvent
  {
    RenderMarkerShape(body, scenario, event);
    TokenInRendered(RenderMarker(body, Marker(scenario, event)), body + "\n\n", scenario, event, "",
                    otherScenario, otherEvent);
  }

  /** The same for an attachment summary, whatever the stripping removed. */
  lemma SummaryMarkerUnique(description: string, scenario: string, event: string, sha256: string,
                            otherScenario: string, otherEvent: string)
    requires IsSlug(scenario) && IsSlug(event) && IsSlug(otherScenario) && IsSlug(otherEvent)
    requires Unmarked(description) && IsHex(sha256)
    ensures Contains(RenderAttachmentSummary(description, Marker(scenario, event), sha256),
                     Token(Marker(otherScenario, otherEvent)))
         <==> scenario == otherScenario && event == otherEvent
  {
    var head := RenderSummaryShape(description, scenario, event, sha256);
    TokenInRendered(RenderAttachmentSummary(description, Marker(scenario, event), sha256),
                    head, scenario, event, " sha256=" + sha256, otherScenario, otherEvent);
  }
}
