/** The choice fields of conversations/models.py, shared by the backend and the
    frontend (whose TypeScript unions 'OPEN' | 'CLOSED' and 'SENT' | 'RECEIVED'
    carry the same labels). */
module Choices {
  import opened Text

  /** Conversation.STATE_CHOICES. */
  datatype State = Open | Closed

  /** Message.DIRECTION_CHOICES. */
  datatype Direction = Sent | Received

  function DirectionLabel(d: Direction): string {
    match d
    case Sent => "SENT"
    case Received => "RECEIVED"
  }

  /** Reads a stored label back into the choice it names, if it names one. */
  function ParseDirection(s: string): (r: Option<Direction>)
    ensures r.Some? ==> DirectionLabel(r.value) == s
  {
    if s == "SENT" then Some(Sent)
    else if s == "RECEIVED" then Some(Received)
    else None
  }

  /** The labels are the only strings that parse, and each parses to its own choice. */
  lemma DirectionLabelRoundTrip(d: Direction)
    ensures ParseDirection(DirectionLabel(d)) == Some(d)
  {
  }
}

/** Conversation and Message of conversations/models.py as records of the
    in-memory store that stands for the database, and the primary-key type. */
module Models {
  import opened Text
  import opened Choices

  /** A canonical UUID: what a UUIDField stores, written as 32 lower-case hex digits. */
  predicate IsCanonicalUuid(u: string) {
    |u| == 32 && forall i :: 0 <= i < |u| ==> IsLowerHex(u[i])
  }

  type Uuid = string

  predicate IsLowerHex(c: char) {
    '0' <= c <= '9' || 'a' <= c <= 'f'
  }

  predicate IsHex(c: char) {
    IsLowerHex(c) || 'A' <= c <= 'F'
  }

  /** A Conversation row: `state` (default OPEN) and `created_at` (auto_now_add). */
  datatype Conversation = Conversation(state: State, createdAt: int)

  /** A Message row. The foreign key `conversation` names its conversation's key;
      `direction` holds the label exactly as the webhook delivered it. */
  datatype Message = Message(conversation: Uuid, direction: string, content: string, createdAt: int)

  /** The row `Conversation.objects.create(id=..., state='OPEN')` inserts at time `now`. */
  function FreshConversation(now: int): (c: Conversation)
    ensures c.state == Open && c.createdAt == now
  {
    Conversation(Open, now)
  }

  /** `s.replace(pat, '')` for a non-empty pattern: remove non-overlapping occurrences left to right. */
  function RemoveAll(s: string, pat: string): (r: string)
    requires pat != []
    ensures |r| <= |s|
    decreases |s|
  {
    if s == [] then []
    else if pat <= s then RemoveAll(s[|pat|..], pat)
    else [s[0]] + RemoveAll(s[1..], pat)
  }

  /** `s.strip('{}')`. */
  function StripBraces(s: string): (r: string)
    ensures |r| <= |s|
  {
    if s != [] && (s[0] == '{' || s[0] == '}') then StripBraces(s[1..])
    else if s != [] && (s[|s| - 1] == '{' || s[|s| - 1] == '}') then StripBraces(s[..|s| - 1])
    else s
  }

  function RemoveHyphens(s: string): (r: string)
    ensures |r| <= |s|
    ensures forall i :: 0 <= i < |r| ==> r[i] != '-'
  {
    if s == [] then []
    else if s[0] == '-' then RemoveHyphens(s[1..])
    else [s[0]] + RemoveHyphens(s[1..])
  }

  function HexLower(c: char): (r: char)
    requires IsHex(c)
    ensures IsLowerHex(r)
    ensures IsLowerHex(c) ==> r == c
  {
    if 'A' <= c <= 'F' then (c as int + 32) as char else c
  }

  function LowerHex(s: string): (r: string)
    requires forall i :: 0 <= i < |s| ==> IsHex(s[i])
    ensures |r| == |s|
    ensures forall i :: 0 <= i < |s| ==> r[i] == HexLower(s[i])
  {
    seq(|s|, i requires 0 <= i < |s| => HexLower(s[i]))
  }

  /** What UUIDField makes of a string key (uuid.UUID(hex=s)): drop "urn:" and
      "uuid:", strip braces, drop hyphens, and demand 32 hex digits. None stands
      for the ValidationError the field raises on anything else. */
  function ParseUuid(s: string): (r: Option<Uuid>)
    ensures r.Some? ==> IsCanonicalUuid(r.value)
  {
    var h := RemoveHyphens(StripBraces(RemoveAll(RemoveAll(s, "urn:"), "uuid:")));
    if |h| == 32 && forall i :: 0 <= i < |h| ==> IsHex(h[i]) then Some(LowerHex(h)) else None
  }

  /** The 8-4-4-4-12 form that crypto.randomUUID produces. */
  function Dashed(u: Uuid): string
    requires |u| == 32
  {
    u[..8] + "-" + u[8..12] + "-" + u[12..16] + "-" + u[16..20] + "-" + u[20..]
  }

  lemma {:induction false} RemoveAllAbsent(s: string, pat: string)
    requires pat != [] && pat[|pat| - 1] == ':'
    requires forall i :: 0 <= i < |s| ==> s[i] != ':'
    ensures RemoveAll(s, pat) == s
    decreases |s|
  {
    if s != [] {
      assert !(pat <= s) by {
        if |pat| <= |s| {
          assert s[|pat| - 1] != ':';
        }
      }
      RemoveAllAbsent(s[1..], pat);
    }
  }

  lemma {:induction false} RemoveHyphensAppend(a: string, b: string)
    ensures RemoveHyphens(a + b) == RemoveHyphens(a) + RemoveHyphens(b)
  {
    if a == [] {
      assert a + b == b;
    } else {
      assert (a + b)[1..] == a[1..] + b;
      RemoveHyphensAppend(a[1..], b);
    }
  }

  lemma {:induction false} RemoveHyphensNone(s: string)
    requires forall i :: 0 <= i < |s| ==> s[i] != '-'
    ensures RemoveHyphens(s) == s
  {
    if s != [] {
      RemoveHyphensNone(s[1..]);
    }
  }

  lemma RemoveHyphensAround(a: string, b: string)
    requires forall i :: 0 <= i < |b| ==> b[i] != '-'
    ensures RemoveHyphens(a + "-" + b) == RemoveHyphens(a) + b
  {
    RemoveHyphensAppend(a, "-");
    RemoveHyphensAppend(a + "-", b);
    RemoveHyphensNone(b);
  }

  lemma DashedHyphensRemoved(u: Uuid)
    requires IsCanonicalUuid(u)
    ensures RemoveHyphens(Dashed(u)) == u
  {
    var q1 := u[..8];
    RemoveHyphensNone(q1);
    var q2 := q1 + "-" + u[8..12];
    RemoveHyphensAround(q1, u[8..12]);
    assert RemoveHyphens(q2) == u[..12];
    var q3 := q2 + "-" + u[12..16];
    RemoveHyphensAround(q2, u[12..16]);
    assert RemoveHyphens(q3) == u[..16];
    var q4 := q3 + "-" + u[16..20];
    RemoveHyphensAround(q3, u[16..20]);
    assert RemoveHyphens(q4) == u[..20];
    RemoveHyphensAround(q4, u[20..]);
    assert Dashed(u) == q4 + "-" + u[20..];
    assert u[..20] + u[20..] == u;
  }

  /** A key with no colon and no braces at its ends parses to its hyphen-free
      form when that form is canonical. */
  lemma ParsePlain(s: string, u: Uuid)
    requires IsCanonicalUuid(u)
    requires forall i :: 0 <= i < |s| ==> s[i] != ':'
    requires StripBraces(s) == s && RemoveHyphens(s) == u
    ensures ParseUuid(s) == Some(u)
  {
    RemoveAllAbsent(s, "urn:");
    RemoveAllAbsent(s, "uuid:");
    assert LowerHex(u) == u;
  }

  /** The dashed form holds hex digits and hyphens only. */
  lemma DashedAlphabet(u: Uuid)
    requires IsCanonicalUuid(u)
    ensures var d := Dashed(u);
            forall i :: 0 <= i < |d| ==> d[i] == '-' || IsLowerHex(d[i])
  {
  }

  lemma StripBracesPlain(s: string)
    requires forall i :: 0 <= i < |s| ==> s[i] != '{' && s[i] != '}'
    ensures StripBraces(s) == s
  {
  }

  /** The dashed form of a canonical key parses back to the key. */
  lemma ParseDashed(u: Uuid)
    requires IsCanonicalUuid(u)
    ensures ParseUuid(Dashed(u)) == Some(u)
  {
    var d := Dashed(u);
    DashedAlphabet(u);
    StripBracesPlain(d);
    DashedHyphensRemoved(u);
    ParsePlain(d, u);
  }

  /** Parsing a canonical key gives it back, and so does parsing the dashed form a
      browser generates: the ids the frontend invents are keys the backend accepts. */
  lemma ParseCanonical(u: Uuid)
    requires IsCanonicalUuid(u)
    ensures ParseUuid(u) == Some(u)
    ensures ParseUuid(Dashed(u)) == Some(u)
  {
    RemoveHyphensNone(u);
    StripBracesPlain(u);
    ParsePlain(u, u);
    ParseDashed(u);
  }

  /** Keys differing only in the case of their hex digits name the same row. */
  lemma ParseIgnoresCase(u: Uuid)
    requires IsCanonicalUuid(u)
    ensures forall i :: 0 <= i < |u| ==> IsHex(u[i])
    ensures ParseUuid(UpperHex(u)) == Some(u)
  {
    RemoveAllAbsent(UpperHex(u), "urn:");
    RemoveAllAbsent(UpperHex(u), "uuid:");
    RemoveHyphensNone(UpperHex(u));
    assert LowerHex(UpperHex(u)) == u;
  }

  function UpperHex(u: Uuid): (r: string)
    requires IsCanonicalUuid(u)
    ensures |r| == 32 && forall i :: 0 <= i < 32 ==> IsHex(r[i]) && r[i] != ':' && r[i] != '-'
    ensures forall i :: 0 <= i < 32 ==> (if 'a' <= u[i] <= 'f' then r[i] as int == u[i] as int - 32 else r[i] == u[i])
  {
    seq(32, i requires 0 <= i < 32 => if 'a' <= u[i] <= 'f' then (u[i] as int - 32) as char else u[i])
  }
}
