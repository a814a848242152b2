/** The JWT keyring: the JWT_SECRETS parser and key selection. */
module Keyring {
  import opened Text
  import opened Wrappers

  type Ring = map<string, string>

  datatype KeyPair = KeyPair(kid: string, secret: string)
  datatype Entry = Blank | Malformed | Keyed(pair: KeyPair)
  datatype Result = Ok(ring: Ring) | KeyringError

  /** How one comma-separated entry reads. */
  function Classify(raw: string): Entry {
    var entry := Strip(raw);
    if entry == "" then Blank
    else if '=' !in entry then Malformed
    else
      var cut := Find('=', entry);
      var kid, secret := Strip(entry[..cut]), Strip(entry[cut + 1..]);
      if kid == "" || secret == "" then Malformed else Keyed(KeyPair(kid, secret))
  }

  function ClassifyAll(parts: seq<string>): seq<Entry> {
    seq(|parts|, i requires 0 <= i < |parts| => Classify(parts[i]))
  }

  function PairOf(entry: Entry): seq<KeyPair> {
    if entry.Keyed? then [entry.pair] else []
  }

  /** The pairs among the entries, in order. */
  function Pairs(entries: seq<Entry>): seq<KeyPair> {
    if entries == [] then [] else Pairs(entries[..|entries| - 1]) + PairOf(entries[|entries| - 1])
  }

  predicate DistinctKids(pairs: seq<KeyPair>) {
    forall i, j :: 0 <= i < j < |pairs| ==> pairs[i].kid != pairs[j].kid
  }

  function RingOf(pairs: seq<KeyPair>): Ring {
    if pairs == [] then map[]
    else var last := pairs[|pairs| - 1]; RingOf(pairs[..|pairs| - 1])[last.kid := last.secret]
  }

  /** The outcome for a list of entries: all well formed, no kid twice, and nothing at all means fallback. */
  function Outcome(entries: seq<Entry>, fallback: Ring): Result {
    if Malformed in entries || !DistinctKids(Pairs(entries)) then KeyringError
    else if Pairs(entries) == [] then Ok(fallback)
    else Ok(RingOf(Pairs(entries)))
  }

  function Parsed(jwtSecrets: string, fallbackSecret: string, fallbackKid: string): Result {
    Outcome(ClassifyAll(Split(jwtSecrets, ',')), map[fallbackKid := fallbackSecret])
  }

  lemma {:induction false} PairsPrefix(entries: seq<Entry>, n: nat)
    requires n <= |entries|
    ensures Pairs(entries[..n]) <= Pairs(entries)
  {
    if n < |entries| {
      var front := entries[..|entries| - 1];
      PairsPrefix(front, n);
      assert front[..n] == entries[..n];
    } else {
      assert entries[..n] == entries;
    }
  }

  lemma PairsStep(entries: seq<Entry>, n: nat)
    requires n < |entries|
    ensures Pairs(entries[..n + 1]) == Pairs(entries[..n]) + PairOf(entries[n])
  {
    assert entries[..n + 1][..n] == entries[..n];
  }

  /** `pairs` lists the ring in some order. */
  ghost predicate Lists(pairs: seq<KeyPair>, ring: Ring) {
    && (forall i :: 0 <= i < |pairs| ==> pairs[i].kid in ring && ring[pairs[i].kid] == pairs[i].secret)
    && (forall kid :: kid in ring ==> exists i :: 0 <= i < |pairs| && pairs[i].kid == kid)
  }

  lemma ListsSnoc(pairs: seq<KeyPair>, last: KeyPair, ring: Ring)
    requires Lists(pairs, ring) && last.kid !in ring
    ensures Lists(pairs + [last], ring[last.kid := last.secret])
  {
    var longer, grown := pairs + [last], ring[last.kid := last.secret];
    forall kid | kid in grown ensures exists i :: 0 <= i < |longer| && longer[i].kid == kid {
      if kid == last.kid {
        assert longer[|pairs|].kid == kid;
      } else {
        var i :| 0 <= i < |pairs| && pairs[i].kid == kid;
        assert longer[i].kid == kid;
      }
    }
  }

  lemma {:induction false} RingLists(pairs: seq<KeyPair>)
    requires DistinctKids(pairs)
    ensures Lists(pairs, RingOf(pairs))
  {
    if pairs != [] {
      var front, last := pairs[..|pairs| - 1], pairs[|pairs| - 1];
      assert pairs == front + [last];
      RingLists(front);
      assert forall i :: 0 <= i < |front| ==> front[i].kid != last.kid;
      ListsSnoc(front, last, RingOf(front));
    }
  }

  lemma ListsUnique(pairs: seq<KeyPair>, a: Ring, b: Ring)
    requires Lists(pairs, a) && Lists(pairs, b)
    ensures a == b
  {
    assert forall kid :: kid in a ==> kid in b && a[kid] == b[kid];
    assert forall kid :: kid in b ==> kid in a;
  }

  method ParseKeyring(jwtSecrets: string, fallbackSecret: string, fallbackKid: string) returns (r: Result)
    ensures r == Parsed(jwtSecrets, fallbackSecret, fallbackKid)
  {
    if Strip(jwtSecrets) == "" {
      BlankInput(jwtSecrets);
      assert [Blank][..0] == [] && Pairs([Blank]) == [];
      return Ok(map[fallbackKid := fallbackSecret]);
    }
    r := Collect(ClassifyAll(Split(jwtSecrets, ',')), map[fallbackKid := fallbackSecret]);
  }

  /** The parser's loop: fill the dict entry by entry, stopping at the first fault. */
  method Collect(entries: seq<Entry>, fallback: Ring) returns (r: Result)
    ensures r == Outcome(entries, fallback)
  {
    var keyring: Ring := map[];
    for n := 0 to |entries|
      invariant Malformed !in entries[..n]
      invariant DistinctKids(Pairs(entries[..n]))
      invariant keyring == RingOf(Pairs(entries[..n]))
    {
      PairsStep(entries, n);
      match entries[n] {
        case Blank =>
          assert Pairs(entries[..n]) + [] == Pairs(entries[..n]);
        case Malformed =>
          return KeyringError;
        case Keyed(pair) =>
          if pair.kid in keyring {
            SeenTwice(entries, n);
            return KeyringError;
          }
          RingGrows(Pairs(entries[..n]), pair);
          keyring := keyring[pair.kid := pair.secret];
      }
    }
    assert entries[..|entries|] == entries;
    RingLists(Pairs(entries));
    assert Pairs(entries) != [] ==> Pairs(entries)[0].kid in keyring;
    if |keyring| == 0 {
      return Ok(fallback);
    }
    return Ok(keyring);
  }

  lemma RingGrows(pairs: seq<KeyPair>, pair: KeyPair)
    requires DistinctKids(pairs) && pair.kid !in RingOf(pairs)
    ensures DistinctKids(pairs + [pair])
    ensures RingOf(pairs + [pair]) == RingOf(pairs)[pair.kid := pair.secret]
  {
    RingLists(pairs);
    assert (pairs + [pair])[..|pairs|] == pairs;
  }

  lemma SeenTwice(entries: seq<Entry>, n: nat)
    requires n < |entries| && entries[n].Keyed? && DistinctKids(Pairs(entries[..n]))
    requires entries[n].pair.kid in RingOf(Pairs(entries[..n]))
    ensures !DistinctKids(Pairs(entries))
  {
    var before, kid := Pairs(entries[..n]), entries[n].pair.kid;
    RingLists(before);
    PairsStep(entries, n);
    PairsPrefix(entries, n + 1);
    var i :| 0 <= i < |before| && before[i].kid == kid;
    assert Pairs(entries)[i].kid == Pairs(entries)[|before|].kid;
  }

  /** The early test for blank input changes no answer: blank text has no entries either. */
  lemma BlankInput(text: string)
    requires Strip(text) == ""
    ensures ClassifyAll(Split(text, ',')) == [Blank]
  {
    var left, right := StripSplits(text);
    assert text == left + right;
    assert forall i :: 0 <= i < |text| ==> IsSpace(text[i]);
    SplitPrefix(text, ',', "");
  }

  lemma ClassifyParts(raw: string, key: string, val: string)
    requires Strip(raw) == key + "=" + val && '=' !in key && Strip(key) != "" && Strip(val) != ""
    ensures Classify(raw) == Keyed(KeyPair(Strip(key), Strip(val)))
  {
    var entry := key + "=" + val;
    assert entry[..|key|] == key && entry[|key| + 1..] == val;
    FindIs('=', entry, |key|);
  }

  /** Padding around kid, '=' and secret is immaterial; the secret may hold further '='. */
  lemma ClassifyPadded(p1: string, kid: string, p2: string, p3: string, secret: string, p4: string)
    requires AllSpace(p1) && AllSpace(p2) && AllSpace(p3) && AllSpace(p4)
    requires kid != "" && Trimmed(kid) && '=' !in kid
    requires secret != "" && Trimmed(secret)
    ensures Classify(p1 + (kid + p2 + "=" + (p3 + secret)) + p4) == Keyed(KeyPair(kid, secret))
  {
    var key, val := kid + p2, p3 + secret;
    var entry := key + "=" + val;
    assert entry[0] == kid[0] && entry[|entry| - 1] == secret[|secret| - 1];
    StripPads(p1, entry, p4);
    StripPads("", kid, p2);
    assert "" + kid + p2 == key;
    StripPads(p3, secret, "");
    assert p3 + secret + "" == val;
    ClassifyParts(p1 + entry + p4, key, val);
  }

  lemma KeyHalf(key: string) returns (lead: string, rest: string)
    ensures key == lead + rest && AllSpace(lead) && (rest == "" || !IsSpace(rest[0])) && Strip(rest) == Strip(key)
  {
    lead := LStripSplits(key);
    rest := LStrip(key);
  }

  lemma ValueHalf(val: string) returns (rest: string, trail: string)
    ensures val == rest + trail && AllSpace(trail)
    ensures (rest == "" || !IsSpace(rest[|rest| - 1])) && Strip(rest) == Strip(val)
  {
    var left, right := StripSplits(val);
    if Strip(val) == "" {
      rest, trail := "", val;
    } else {
      rest, trail := left + Strip(val), right;
      StripPads(left, Strip(val), "");
      assert rest + "" == rest;
    }
  }

  lemma ClassifyCore(lead: string, key: string, val: string, trail: string)
    requires AllSpace(lead) && AllSpace(trail) && '=' !in key
    requires key == "" || !IsSpace(key[0])
    requires val == "" || !IsSpace(val[|val| - 1])
    ensures Classify(lead + (key + "=" + val) + trail)
         == if Strip(key) == "" || Strip(val) == "" then Malformed else Keyed(KeyPair(Strip(key), Strip(val)))
  {
    var entry := key + "=" + val;
    StripPads(lead, entry, trail);
    assert entry[..|key|] == key && entry[|key| + 1..] == val;
    FindIs('=', entry, |key|);
  }

  /** The first '=' alone decides how an entry reads; the secret may hold any number of further ones. */
  lemma FirstEqualsDecides(key: string, val: string)
    requires '=' !in key
    ensures Classify(key + "=" + val)
         == if Strip(key) == "" || Strip(val) == "" then Malformed else Keyed(KeyPair(Strip(key), Strip(val)))
  {
    var lead, k := KeyHalf(key);
    var v, trail := ValueHalf(val);
    ClassifyCore(lead, k, v, trail);
    assert key + "=" + val == lead + (k + "=" + v) + trail;
  }

  predicate Printable(pair: KeyPair) {
    && pair.kid != "" && Trimmed(pair.kid) && ',' !in pair.kid && '=' !in pair.kid
    && pair.secret != "" && Trimmed(pair.secret) && ',' !in pair.secret
  }

  function Print(pair: KeyPair): string { pair.kid + "=" + pair.secret }

  function PrintEach(pairs: seq<KeyPair>): seq<string> {
    seq(|pairs|, i requires 0 <= i < |pairs| => Print(pairs[i]))
  }

  lemma ClassifyPrinted(pair: KeyPair)
    requires Printable(pair)
    ensures Classify(Print(pair)) == Keyed(pair)
    ensures ',' !in Print(pair)
  {
    var entry := Print(pair);
    assert entry[0] == pair.kid[0] && entry[|entry| - 1] == pair.secret[|pair.secret| - 1];
    StripTrimmed(entry);
    StripTrimmed(pair.kid);
    StripTrimmed(pair.secret);
    ClassifyParts(entry, pair.kid, pair.secret);
  }

  lemma {:induction false} PairsOfKeyed(entries: seq<Entry>, pairs: seq<KeyPair>)
    requires |entries| == |pairs|
    requires forall i :: 0 <= i < |pairs| ==> entries[i] == Keyed(pairs[i])
    ensures Pairs(entries) == pairs
  {
    if pairs != [] {
      PairsOfKeyed(entries[..|pairs| - 1], pairs[..|pairs| - 1]);
    }
  }

  lemma PrintedParts(pairs: seq<KeyPair>)
    requires forall i :: 0 <= i < |pairs| ==> Printable(pairs[i])
    ensures forall i :: 0 <= i < |pairs| ==> ',' !in PrintEach(pairs)[i]
    ensures Pairs(ClassifyAll(PrintEach(pairs))) == pairs && Malformed !in ClassifyAll(PrintEach(pairs))
  {
    var entries := ClassifyAll(PrintEach(pairs));
    forall i | 0 <= i < |pairs| ensures ',' !in PrintEach(pairs)[i] && entries[i] == Keyed(pairs[i]) {
      ClassifyPrinted(pairs[i]);
    }
    PairsOfKeyed(entries, pairs);
  }

  /** Parsing a printed non-empty ring returns the ring, whatever order it was printed in. */
  lemma PrintParse(ring: Ring, pairs: seq<KeyPair>, fallbackSecret: string, fallbackKid: string)
    requires DistinctKids(pairs) && Lists(pairs, ring) && pairs != []
    requires forall i :: 0 <= i < |pairs| ==> Printable(pairs[i])
    ensures Parsed(Join(PrintEach(pairs), ','), fallbackSecret, fallbackKid) == Ok(ring)
  {
    PrintedParts(pairs);
    SplitJoin(PrintEach(pairs), ',');
    RingLists(pairs);
    ListsUnique(pairs, RingOf(pairs), ring);
  }

  /** Such as base64 padding, although the module text says it is refused. */
  lemma EqualsInSecret(fallbackSecret: string, fallbackKid: string)
    ensures Parsed("k1=c2VjcmV0Cg==", fallbackSecret, fallbackKid) == Ok(map["k1" := "c2VjcmV0Cg=="])
  {
    var pair := KeyPair("k1", "c2VjcmV0Cg==");
    assert [pair][0].kid == "k1";
    assert Print(pair) == "k1=c2VjcmV0Cg==" && PrintEach([pair]) == ["k1=c2VjcmV0Cg=="];
    PrintParse(map["k1" := "c2VjcmV0Cg=="], [pair], fallbackSecret, fallbackKid);
  }

  /** A successful parse is never empty. */
  lemma ParsedNonEmpty(text: string, fallbackSecret: string, fallbackKid: string)
    requires Parsed(text, fallbackSecret, fallbackKid).Ok?
    ensures Parsed(text, fallbackSecret, fallbackKid).ring != map[]
  {
    var pairs := Pairs(ClassifyAll(Split(text, ',')));
    RingLists(pairs);
    assert pairs != [] ==> pairs[0].kid in RingOf(pairs);
    assert fallbackKid in map[fallbackKid := fallbackSecret];
  }

  lemma PairsOrdered(entries: seq<Entry>, i: nat, j: nat) returns (a: nat, b: nat)
    requires i < j < |entries| && entries[i].Keyed? && entries[j].Keyed?
    ensures a < b < |Pairs(entries)|
    ensures Pairs(entries)[a] == entries[i].pair && Pairs(entries)[b] == entries[j].pair
  {
    PairsStep(entries, i);
    PairsStep(entries, j);
    assert entries[..j][..i + 1] == entries[..i + 1];
    PairsPrefix(entries[..j], i + 1);
    PairsPrefix(entries, j + 1);
    a, b := |Pairs(entries[..i])|, |Pairs(entries[..j])|;
    assert Pairs(entries)[a] == Pairs(entries[..j])[a];
  }

  // Exactly which texts are accepted, and as what.

  /** The stripped text before the first '=' of an entry. */
  function KidText(raw: string): string
    requires '=' in raw
  {
    Strip(raw[..Find('=', raw)])
  }

  /** The stripped text behind it. */
  function SecretText(raw: string): string
    requires '=' in raw
  {
    Strip(raw[Find('=', raw) + 1..])
  }

  predicate Complete(raw: string) {
    '=' in raw && KidText(raw) != "" && SecretText(raw) != ""
  }

  lemma StripEquals(raw: string)
    ensures '=' in Strip(raw) <==> '=' in raw
  {
    var left, right := StripSplits(raw);
    assert '=' !in left && '=' !in right;
  }

  lemma ClassifyExact(raw: string)
    ensures Classify(raw)
         == if Strip(raw) == "" then Blank
            else if Complete(raw) then Keyed(KeyPair(KidText(raw), SecretText(raw)))
            else Malformed
    ensures Complete(raw) ==> Strip(raw) != ""
  {
    StripEquals(raw);
    if '=' in raw {
      var k := Find('=', raw);
      assert raw == raw[..k] + "=" + raw[k + 1..];
      FirstEqualsDecides(raw[..k], raw[k + 1..]);
    }
  }

  predicate EntriesDistinct(entries: seq<Entry>) {
    forall i, j :: 0 <= i < j < |entries| && entries[i].Keyed? && entries[j].Keyed? ==>
      entries[i].pair.kid != entries[j].pair.kid
  }

  lemma {:induction false} PairsHold(entries: seq<Entry>, pair: KeyPair)
    ensures pair in Pairs(entries) <==> Keyed(pair) in entries
  {
    if entries != [] {
      var front, e := entries[..|entries| - 1], entries[|entries| - 1];
      assert entries == front + [e];
      PairsHold(front, pair);
    }
  }

  lemma DistinctSnoc(pairs: seq<KeyPair>, last: KeyPair)
    ensures DistinctKids(pairs + [last]) <==> DistinctKids(pairs) && forall p :: p in pairs ==> p.kid != last.kid
  {
    var all := pairs + [last];
    if DistinctKids(all) {
      assert forall i :: 0 <= i < |pairs| ==> all[i] == pairs[i] && all[i].kid != all[|pairs|].kid;
    }
  }

  lemma {:induction false} DistinctPairs(entries: seq<Entry>)
    ensures DistinctKids(Pairs(entries)) <==> EntriesDistinct(entries)
  {
    if entries != [] {
      var front, e := entries[..|entries| - 1], entries[|entries| - 1];
      assert entries == front + [e];
      DistinctPairs(front);
      if e.Keyed? {
        DistinctSnoc(Pairs(front), e.pair);
        forall p ensures p in Pairs(front) <==> Keyed(p) in front {
          PairsHold(front, p);
        }
      } else {
        assert Pairs(front) + [] == Pairs(front);
      }
    }
  }

  predicate Readable(raw: string) {
    Strip(raw) == "" || Complete(raw)
  }

  predicate AllReadable(parts: seq<string>) {
    forall i :: 0 <= i < |parts| ==> Readable(parts[i])
  }

  predicate KidsDiffer(parts: seq<string>) {
    forall i, j :: 0 <= i < j < |parts| && Complete(parts[i]) && Complete(parts[j]) ==>
      KidText(parts[i]) != KidText(parts[j])
  }

  predicate Gives(raw: string, pair: KeyPair) {
    Complete(raw) && pair == KeyPair(KidText(raw), SecretText(raw))
  }

  predicate Given(parts: seq<string>, pair: KeyPair) {
    exists i :: 0 <= i < |parts| && Gives(parts[i], pair)
  }

  predicate NoneComplete(parts: seq<string>) {
    forall i :: 0 <= i < |parts| ==> !Complete(parts[i])
  }

  lemma ReadableEntries(parts: seq<string>)
    ensures Malformed !in ClassifyAll(parts) <==> AllReadable(parts)
  {
    var entries := ClassifyAll(parts);
    forall i | 0 <= i < |parts| ensures entries[i] == Malformed <==> !Readable(parts[i]) {
      ClassifyExact(parts[i]);
    }
  }

  lemma DistinctEntries(parts: seq<string>)
    ensures EntriesDistinct(ClassifyAll(parts)) <==> KidsDiffer(parts)
  {
    var entries := ClassifyAll(parts);
    forall i | 0 <= i < |parts|
      ensures entries[i].Keyed? <==> Complete(parts[i])
      ensures Complete(parts[i]) ==> entries[i].pair.kid == KidText(parts[i])
    {
      ClassifyExact(parts[i]);
    }
  }

  lemma GivenEntry(parts: seq<string>, pair: KeyPair)
    ensures Keyed(pair) in ClassifyAll(parts) <==> Given(parts, pair)
  {
    var entries := ClassifyAll(parts);
    forall i | 0 <= i < |parts| ensures entries[i] == Keyed(pair) <==> Gives(parts[i], pair) {
      ClassifyExact(parts[i]);
    }
    if Given(parts, pair) {
      var i :| 0 <= i < |parts| && Gives(parts[i], pair);
      assert entries[i] == Keyed(pair);
    }
  }

  /** Accepted exactly when every entry is blank or complete and no two entries give one kid. */
  lemma AcceptedIff(text: string, fallbackSecret: string, fallbackKid: string)
    ensures Parsed(text, fallbackSecret, fallbackKid).Ok?
       <==> AllReadable(Split(text, ',')) && KidsDiffer(Split(text, ','))
  {
    ReadableEntries(Split(text, ','));
    DistinctEntries(Split(text, ','));
    DistinctPairs(ClassifyAll(Split(text, ',')));
  }

  lemma RingHolds(pairs: seq<KeyPair>, pair: KeyPair)
    requires DistinctKids(pairs)
    ensures pair in pairs <==> pair.kid in RingOf(pairs) && RingOf(pairs)[pair.kid] == pair.secret
  {
    RingLists(pairs);
  }

  lemma NoneGiven(parts: seq<string>)
    ensures Pairs(ClassifyAll(parts)) == [] <==> NoneComplete(parts)
  {
    var pairs := Pairs(ClassifyAll(parts));
    if pairs != [] {
      PairsHold(ClassifyAll(parts), pairs[0]);
      GivenEntry(parts, pairs[0]);
    }
    forall i | 0 <= i < |parts| && Complete(parts[i]) ensures pairs != [] {
      var pair := KeyPair(KidText(parts[i]), SecretText(parts[i]));
      assert Gives(parts[i], pair);
      GivenEntry(parts, pair);
      PairsHold(ClassifyAll(parts), pair);
    }
  }

  /** And then the ring holds exactly the pairs the entries give; if they give none, the fallback key alone. */
  lemma AcceptedRing(text: string, fallbackSecret: string, fallbackKid: string, pair: KeyPair)
    requires Parsed(text, fallbackSecret, fallbackKid).Ok?
    ensures var parts, ring := Split(text, ','), Parsed(text, fallbackSecret, fallbackKid).ring;
            if NoneComplete(parts) then ring == map[fallbackKid := fallbackSecret]
            else pair.kid in ring && ring[pair.kid] == pair.secret <==> Given(parts, pair)
  {
    var parts := Split(text, ',');
    var pairs := Pairs(ClassifyAll(parts));
    PairsHold(ClassifyAll(parts), pair);
    GivenEntry(parts, pair);
    RingHolds(pairs, pair);
    NoneGiven(parts);
  }

  /** A non-blank entry without '=', or with a blank half beside its first one, fails the whole ring. */
  lemma MalformedEntryFails(text: string, i: nat, fallbackSecret: string, fallbackKid: string)
    requires i < |Split(text, ',')|
    requires var raw := Split(text, ',')[i];
             Strip(raw) != "" && ('=' !in raw || KidText(raw) == "" || SecretText(raw) == "")
    ensures Parsed(text, fallbackSecret, fallbackKid) == KeyringError
  {
    AcceptedIff(text, fallbackSecret, fallbackKid);
  }

  /** A repeated kid always fails, wherever its two entries stand. */
  lemma RepeatedKidFails(text: string, i: nat, j: nat, fallbackSecret: string, fallbackKid: string)
    requires i < j < |Split(text, ',')|
    requires var first, second := Classify(Split(text, ',')[i]), Classify(Split(text, ',')[j]);
             first.Keyed? && second.Keyed? && first.pair.kid == second.pair.kid
    ensures Parsed(text, fallbackSecret, fallbackKid) == KeyringError
  {
    var a, b := PairsOrdered(ClassifyAll(Split(text, ',')), i, j);
  }

  lemma {:induction false} DistinctOnce(pairs: seq<KeyPair>, pair: KeyPair)
    requires DistinctKids(pairs)
    ensures multiset(pairs)[pair] <= 1
  {
    if pairs != [] {
      var last := |pairs| - 1;
      assert pairs == pairs[..last] + [pairs[last]];
      DistinctOnce(pairs[..last], pair);
      assert pair == pairs[last] ==> pair !in pairs[..last];
    }
  }

  lemma DistinctPermuted(a: seq<KeyPair>, b: seq<KeyPair>)
    requires DistinctKids(a) && multiset(a) == multiset(b)
    ensures DistinctKids(b)
  {
    forall i, j | 0 <= i < j < |b| ensures b[i].kid != b[j].kid {
      assert b[i] in multiset(a) && b[j] in multiset(a);
      DistinctOnce(a, b[i]);
      assert b == b[..j] + [b[j]] + b[j + 1..];
      assert b[i] in b[..j];
      assert multiset(b) == multiset(b[..j]) + multiset{b[j]} + multiset(b[j + 1..]);
    }
  }

  lemma ListsPermuted(a: seq<KeyPair>, b: seq<KeyPair>, ring: Ring)
    requires multiset(a) == multiset(b) && Lists(a, ring)
    ensures Lists(b, ring)
  {
    forall i | 0 <= i < |b| ensures b[i] in a { assert b[i] in multiset(a); }
    forall i | 0 <= i < |a| ensures a[i] in b { assert a[i] in multiset(b); }
  }

  lemma OutcomeOfBag(a: seq<Entry>, b: seq<Entry>, fallback: Ring)
    requires (Malformed in a) == (Malformed in b) && multiset(Pairs(a)) == multiset(Pairs(b))
    ensures Outcome(a, fallback) == Outcome(b, fallback)
  {
    var p, q := Pairs(a), Pairs(b);
    assert |p| == |multiset(p)| == |multiset(q)| == |q|;
    if DistinctKids(p) {
      DistinctPermuted(p, q);
      RingLists(p);
      RingLists(q);
      ListsPermuted(p, q, RingOf(p));
      ListsUnique(q, RingOf(p), RingOf(q));
    } else if DistinctKids(q) {
      DistinctPermuted(q, p);
      assert false;
    }
  }

  lemma BagWithout<T>(s: seq<T>, i: nat)
    requires i < |s|
    ensures multiset(s) == multiset(s[..i] + s[i + 1..]) + multiset{s[i]}
  {
    assert s == s[..i] + [s[i]] + s[i + 1..];
  }

  /** Equal bags: taking the last element of one list off both. */
  lemma TakeOff<T>(a: seq<T>, b: seq<T>) returns (i: nat)
    requires a != [] && multiset(a) == multiset(b)
    ensures i < |b| && b[i] == a[|a| - 1]
    ensures multiset(a[..|a| - 1]) == multiset(b[..i] + b[i + 1..])
  {
    var x := a[|a| - 1];
    BagWithout(a, |a| - 1);
    assert a[..|a| - 1] + a[|a|..] == a[..|a| - 1] && x in multiset(b);
    i :| 0 <= i < |b| && b[i] == x;
    BagWithout(b, i);
    SameRest(multiset(a[..|a| - 1]), multiset(b[..i] + b[i + 1..]), x);
  }

  lemma SameRest<T>(a: multiset<T>, b: multiset<T>, x: T)
    requires a + multiset{x} == b + multiset{x}
    ensures a == b
  {
    assert a == a + multiset{x} - multiset{x};
    assert b == b + multiset{x} - multiset{x};
  }

  lemma SnocCount<T>(s: seq<T>, e: T, x: T)
    ensures multiset(s + [e])[x] == multiset(s)[x] + if x == e then 1 else 0
  {
  }

  lemma PairsSnoc(entries: seq<Entry>, e: Entry)
    ensures Pairs(entries + [e]) == Pairs(entries) + PairOf(e)
  {
    assert (entries + [e])[..|entries|] == entries;
  }

  lemma PairCountStep(entries: seq<Entry>, e: Entry, pair: KeyPair)
    requires multiset(Pairs(entries))[pair] == multiset(entries)[Keyed(pair)]
    ensures multiset(Pairs(entries + [e]))[pair] == multiset(entries + [e])[Keyed(pair)]
  {
    SnocCount(entries, e, Keyed(pair));
    PairsSnoc(entries, e);
    if e.Keyed? {
      SnocCount(Pairs(entries), e.pair, pair);
    } else {
      assert Pairs(entries) + [] == Pairs(entries);
    }
  }

  lemma {:induction false} PairsCount(entries: seq<Entry>, pair: KeyPair)
    ensures multiset(Pairs(entries))[pair] == multiset(entries)[Keyed(pair)]
  {
    if entries != [] {
      var front, e := entries[..|entries| - 1], entries[|entries| - 1];
      assert entries == front + [e];
      PairsCount(front, pair);
      PairCountStep(front, e, pair);
    }
  }

  lemma PairsPermuted(a: seq<Entry>, b: seq<Entry>)
    requires multiset(a) == multiset(b)
    ensures multiset(Pairs(a)) == multiset(Pairs(b))
  {
    forall pair ensures multiset(Pairs(a))[pair] == multiset(Pairs(b))[pair] {
      PairsCount(a, pair);
      PairsCount(b, pair);
    }
  }

  function Map<A, B>(f: A -> B, s: seq<A>): seq<B> {
    seq(|s|, i requires 0 <= i < |s| => f(s[i]))
  }

  lemma {:induction false} MapPermuted<A, B>(f: A -> B, a: seq<A>, b: seq<A>)
    requires multiset(a) == multiset(b)
    ensures multiset(Map(f, a)) == multiset(Map(f, b))
    decreases |a|
  {
    assert |a| == |multiset(a)| == |multiset(b)| == |b|;
    if a != [] {
      var i := TakeOff(a, b);
      var front, left, right := a[..|a| - 1], b[..i], b[i + 1..];
      MapPermuted(f, front, left + right);
      assert Map(f, a) == Map(f, front) + [f(b[i])];
      assert Map(f, b) == Map(f, left) + [f(b[i])] + Map(f, right);
      assert Map(f, left + right) == Map(f, left) + Map(f, right);
    }
  }

  /** The non-blank entries without their outer whitespace. */
  function Solid(parts: seq<string>): seq<string> {
    if parts == [] then []
    else
      var entry := Strip(parts[|parts| - 1]);
      Solid(parts[..|parts| - 1]) + if entry == "" then [] else [entry]
  }

  lemma ClassifyTrimmed(raw: string)
    ensures Classify(Strip(raw)) == Classify(raw) && (Strip(raw) == "" <==> Classify(raw).Blank?)
  {
    var left, right := StripSplits(raw);
    StripTrimmed(Strip(raw));
  }

  predicate SameMeaning(a: seq<Entry>, b: seq<Entry>) {
    Pairs(a) == Pairs(b) && (Malformed in a <==> Malformed in b)
  }

  lemma MeaningSnoc(a: seq<Entry>, b: seq<Entry>, e: Entry)
    requires SameMeaning(a, b)
    ensures SameMeaning(a + [e], b + [e]) && (e.Blank? ==> SameMeaning(a, b + [e]))
  {
    assert (a + [e])[..|a|] == a && (b + [e])[..|b|] == b;
    assert Pairs(b) + [] == Pairs(b);
  }

  lemma ClassifySnoc(parts: seq<string>, raw: string)
    ensures ClassifyAll(parts + [raw]) == ClassifyAll(parts) + [Classify(raw)]
  {
  }

  lemma SolidStep(before: seq<string>, raw: string)
    requires SameMeaning(ClassifyAll(Solid(before)), ClassifyAll(before))
    ensures SameMeaning(ClassifyAll(Solid(before + [raw])), ClassifyAll(before + [raw]))
  {
    var solid := Solid(before);
    ClassifyTrimmed(raw);
    MeaningSnoc(ClassifyAll(solid), ClassifyAll(before), Classify(raw));
    ClassifySnoc(before, raw);
    ClassifySnoc(solid, Strip(raw));
    assert (before + [raw])[..|before|] == before && solid + [] == solid;
  }

  lemma {:induction false} SolidMeans(parts: seq<string>)
    ensures SameMeaning(ClassifyAll(Solid(parts)), ClassifyAll(parts))
  {
    if parts != [] {
      SolidMeans(parts[..|parts| - 1]);
      SolidStep(parts[..|parts| - 1], parts[|parts| - 1]);
      assert parts == parts[..|parts| - 1] + [parts[|parts| - 1]];
    }
  }

  lemma SolidPermuted(a: seq<string>, b: seq<string>)
    requires multiset(a) == multiset(b)
    ensures multiset(Pairs(ClassifyAll(a))) == multiset(Pairs(ClassifyAll(b)))
    ensures Malformed in ClassifyAll(a) <==> Malformed in ClassifyAll(b)
  {
    MapPermuted(Classify, a, b);
    assert ClassifyAll(a) == Map(Classify, a) && ClassifyAll(b) == Map(Classify, b);
    PairsPermuted(ClassifyAll(a), ClassifyAll(b));
    assert Malformed in multiset(ClassifyAll(a)) <==> Malformed in multiset(ClassifyAll(b));
  }

  /**
   Two texts with the same non-blank entries, in any order, with any whitespace around them and any number
   of blank entries between them, parse alike, faults included.
   */
  lemma OrderImmaterial(a: string, b: string, fallbackSecret: string, fallbackKid: string)
    requires multiset(Solid(Split(a, ','))) == multiset(Solid(Split(b, ',')))
    ensures Parsed(a, fallbackSecret, fallbackKid) == Parsed(b, fallbackSecret, fallbackKid)
  {
    SolidMeans(Split(a, ','));
    SolidMeans(Split(b, ','));
    SolidPermuted(Solid(Split(a, ',')), Solid(Split(b, ',')));
    OutcomeOfBag(ClassifyAll(Split(a, ',')), ClassifyAll(Split(b, ',')), map[fallbackKid := fallbackSecret]);
  }

  /** The (kid, secret) new tokens are signed with; an unknown current kid is an error. */
  function SelectSigningKey(keyring: Ring, currentKid: string): Option<KeyPair> {
    if currentKid !in keyring then None else Some(KeyPair(currentKid, keyring[currentKid]))
  }

  /** The secret to verify a token with; a missing kid falls back to "default". */
  function SelectVerificationKey(keyring: Ring, kid: Option<string>): Option<string> {
    if kid.Some? && kid.value != "" && kid.value in keyring then Some(keyring[kid.value])
    else if kid.None? && "default" in keyring then Some(keyring["default"])
    else None
  }

  /** New tokens are signed under the current kid with that kid's own secret, or not at all. */
  lemma SigningKeyExact(keyring: Ring, currentKid: string, pair: KeyPair)
    ensures SelectSigningKey(keyring, currentKid) == Some(pair)
       <==> pair.kid == currentKid && currentKid in keyring && keyring[currentKid] == pair.secret
  {
  }

  /** A token is checked against its own kid's secret, and against that of "default" exactly when it has no kid. */
  lemma VerificationKeyExact(keyring: Ring, kid: Option<string>, secret: string)
    ensures SelectVerificationKey(keyring, kid) == Some(secret)
       <==> var name := if kid.Some? then kid.value else "default";
            kid != Some("") && name in keyring && keyring[name] == secret
  {
  }
}
