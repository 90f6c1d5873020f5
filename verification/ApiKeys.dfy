/**
 * The API_KEYS setting (backend/app/config.py) and the authenticator that
 * scans its bindings (backend/app/auth.py).
 */
module ApiKeys {
  import opened Wrappers
  import opened Text

  datatype Binding = Binding(id: string, key: string)

  /** What decoding the text as JSON gives, when the text is taken as JSON. */
  datatype Json = Malformed | NotObject | Object(members: seq<(string, Value)>)

  /** A member's value: one key, several keys for rotation, or something else (also inside a list). */
  datatype Value = Key(key: string) | Keys(keys: seq<Option<string>>) | Other

  datatype ConfigError = BadJson | JsonNotObject | JsonValueNotKeys | BareKey | EmptyPart | SharedKey

  datatype Parsed<T> = Good(value: T) | Bad(error: ConfigError)

  function MemberKeys(v: Value): seq<Option<string>> {
    match v
    case Key(k) => [Some(k)]
    case Keys(ks) => ks
    case Other => [None]
  }

  function BindAll(id: string, keys: seq<Option<string>>): Parsed<seq<Binding>> {
    if keys == [] then Good([])
    else if keys[|keys| - 1].None? then Bad(JsonValueNotKeys)
    else
      var front := BindAll(id, keys[..|keys| - 1]);
      if front.Bad? then front else Good(front.value + [Binding(Strip(id), Strip(keys[|keys| - 1].value))])
  }

  function FromMembers(members: seq<(string, Value)>): Parsed<seq<Binding>> {
    if members == [] then Good([]) else
      var front := FromMembers(members[..|members| - 1]);
      if front.Bad? then front else
        var more := BindAll(members[|members| - 1].0, MemberKeys(members[|members| - 1].1));
        if more.Bad? then more else Good(front.value + more.value)
  }

  function FromEntries(entries: seq<string>): Parsed<seq<Binding>> {
    if entries == [] then Good([]) else
      var front := FromEntries(entries[..|entries| - 1]);
      var entry := Strip(entries[|entries| - 1]);
      if front.Bad? || entry == [] then front else
        var parts := Partition(entry, ':');
        if parts.None? then Bad(BareKey)
        else Good(front.value + [Binding(Strip(parts.value.0), Strip(parts.value.1))])
  }

  predicate IsJson(text: string) {
    text != [] && text[0] == '{'
  }

  function Pairs(text: string, json: Json): Parsed<seq<Binding>> {
    if IsJson(text) then
      match json
      case Malformed => Bad(BadJson)
      case NotObject => Bad(JsonNotObject)
      case Object(members) => FromMembers(members)
    else FromEntries(Split(text, ','))
  }

  /** Every key stands for one identity only. */
  ghost predicate OneIdentityPerKey(bs: seq<Binding>) {
    forall i, j | 0 <= i < |bs| && 0 <= j < |bs| && bs[i].key == bs[j].key :: bs[i].id == bs[j].id
  }

  ghost predicate NoEmptyPart(bs: seq<Binding>) {
    forall i | 0 <= i < |bs| :: bs[i].id != [] && bs[i].key != []
  }

  ghost function Parse(raw: string, json: Json): Parsed<seq<Binding>> {
    var text := Strip(raw);
    if text == [] then Good([]) else
      var pairs := Pairs(text, json);
      if pairs.Bad? then pairs
      else if !NoEmptyPart(pairs.value) then Bad(EmptyPart)
      else if !OneIdentityPerKey(pairs.value) then Bad(SharedKey)
      else pairs
  }

  // ---------------------------------------------------------------- //
  // The parser and the authenticator as loops
  // ---------------------------------------------------------------- //

  method ParseMembers(members: seq<(string, Value)>) returns (pairs: Parsed<seq<Binding>>)
    ensures pairs == FromMembers(members)
  {
    var found: seq<Binding> := [];
    for i := 0 to |members|
      invariant FromMembers(members[..i]) == Good(found)
    {
      assert members[..i + 1][..i] == members[..i];
      var more := BindAll(members[i].0, MemberKeys(members[i].1));
      if more.Bad? {
        BadMembersStayBad(members, i + 1);
        return more;
      }
      found := found + more.value;
    }
    assert members[..|members|] == members;
    pairs := Good(found);
  }

  lemma {:induction false} BadMembersStayBad(members: seq<(string, Value)>, n: nat)
    requires n <= |members| && FromMembers(members[..n]).Bad?
    ensures FromMembers(members) == FromMembers(members[..n])
  {
    if n < |members| {
      assert members[..|members| - 1][..n] == members[..n];
      BadMembersStayBad(members[..|members| - 1], n);
    } else {
      assert members[..n] == members;
    }
  }

  method ParseEntries(entries: seq<string>) returns (pairs: Parsed<seq<Binding>>)
    ensures pairs == FromEntries(entries)
  {
    var found: seq<Binding> := [];
    for i := 0 to |entries|
      invariant FromEntries(entries[..i]) == Good(found)
    {
      assert entries[..i + 1][..i] == entries[..i];
      var entry := Strip(entries[i]);
      if entry == [] {
        continue;
      }
      var parts := Partition(entry, ':');
      if parts.None? {
        BadEntriesStayBad(entries, i + 1);
        return Bad(BareKey);
      }
      found := found + [Binding(Strip(parts.value.0), Strip(parts.value.1))];
    }
    assert entries[..|entries|] == entries;
    pairs := Good(found);
  }

  lemma {:induction false} BadEntriesStayBad(entries: seq<string>, n: nat)
    requires n <= |entries| && FromEntries(entries[..n]).Bad?
    ensures FromEntries(entries) == FromEntries(entries[..n])
  {
    if n < |entries| {
      assert entries[..|entries| - 1][..n] == entries[..n];
      BadEntriesStayBad(entries[..|entries| - 1], n);
    } else {
      assert entries[..n] == entries;
    }
  }

  method AllPartsPresent(pairs: seq<Binding>) returns (ok: bool)
    ensures ok <==> NoEmptyPart(pairs)
  {
    for i := 0 to |pairs|
      invariant NoEmptyPart(pairs[..i])
    {
      if pairs[i].id == [] || pairs[i].key == [] {
        return false;
      }
    }
    assert pairs[..|pairs|] == pairs;
    ok := true;
  }

  method NoSharedKey(pairs: seq<Binding>) returns (ok: bool)
    ensures ok <==> OneIdentityPerKey(pairs)
  {
    var seen: map<string, string> := map[];
    for i := 0 to |pairs|
      invariant forall k | k in seen :: exists j | 0 <= j < i :: pairs[j] == Binding(seen[k], k)
      invariant forall j | 0 <= j < i :: pairs[j].key in seen && seen[pairs[j].key] == pairs[j].id
    {
      var b := pairs[i];
      if b.key in seen && seen[b.key] != b.id {
        return false;
      }
      seen := seen[b.key := b.id];
    }
    ok := true;
  }

  /** The setting as parsed at startup: bindings, or the first problem found. */
  method ApiKeyBindings(raw: string, json: Json) returns (bindings: Parsed<seq<Binding>>)
    ensures bindings == Parse(raw, json)
  {
    var text := Strip(raw);
    if text == [] {
      return Good([]);
    }
    if IsJson(text) {
      match json {
        case Malformed => return Bad(BadJson);
        case NotObject => return Bad(JsonNotObject);
        case Object(members) => bindings := ParseMembers(members);
      }
    } else {
      bindings := ParseEntries(Split(text, ','));
    }
    if bindings.Good? {
      var complete := AllPartsPresent(bindings.value);
      if !complete {
        return Bad(EmptyPart);
      }
      var unshared := NoSharedKey(bindings.value);
      if !unshared {
        return Bad(SharedKey);
      }
    }
  }

  /** No subject when nothing is presented or no binding has that key; otherwise one it is bound to. */
  ghost predicate Authenticates(bindings: seq<Binding>, credential: Option<string>, subject: Option<string>) {
    && (subject.None? <==>
          credential.None? || credential.value == [] || forall b | b in bindings :: b.key != credential.value)
    && (subject.Some? ==> Binding(subject.value, credential.value) in bindings)
  }

  /** The identity a credential is bound to, by a scan over all bindings without early exit. */
  method Authenticate(bindings: seq<Binding>, credential: Option<string>) returns (subject: Option<string>)
    ensures Authenticates(bindings, credential, subject)
  {
    if credential.None? || credential.value == [] || bindings == [] {
      return None;
    }
    subject := None;
    for i := 0 to |bindings|
      invariant subject.None? <==> forall j | 0 <= j < i :: bindings[j].key != credential.value
      invariant subject.Some? ==> Binding(subject.value, credential.value) in bindings[..i]
    {
      if credential.value == bindings[i].key {
        subject := Some(bindings[i].id);
      }
    }
  }

  // ---------------------------------------------------------------- //
  // One key, one identity
  // ---------------------------------------------------------------- //

  /**
   * Over accepted bindings the scan is a lookup: it answers `id` exactly when
   * that binding exists, and every ordering or repetition of the same bindings
   * gives the same answer.
   */
  lemma AuthenticationIsLookup(
      raw: string, json: Json, bs: seq<Binding>, other: seq<Binding>, credential: Option<string>,
      subject: Option<string>, again: Option<string>)
    requires Parse(raw, json) == Good(bs)
    requires forall b :: b in bs <==> b in other
    requires Authenticates(bs, credential, subject) && Authenticates(other, credential, again)
    ensures forall id :: subject == Some(id) <==> credential.Some? && Binding(id, credential.value) in bs
    ensures again == subject
  {
    forall id ensures subject == Some(id) <==> credential.Some? && Binding(id, credential.value) in bs {
      if credential.Some? && Binding(id, credential.value) in bs {
        var i :| 0 <= i < |bs| && bs[i] == Binding(id, credential.value);
        assert subject.Some?;
        var j :| 0 <= j < |bs| && bs[j] == Binding(subject.value, credential.value);
      }
    }
    assert subject.Some? ==> Binding(subject.value, credential.value) in other;
    if again.Some? {
      assert Binding(again.value, credential.value) in bs;
    }
  }

  // ---------------------------------------------------------------- //
  // Printing and parsing
  // ---------------------------------------------------------------- //

  function PrintOne(b: Binding): string {
    b.id + [':'] + b.key
  }

  function Printed(bs: seq<Binding>): seq<string> {
    seq(|bs|, i requires 0 <= i < |bs| => PrintOne(bs[i]))
  }

  /** The comma-separated form of the setting. */
  function Print(bs: seq<Binding>): string {
    Join(Printed(bs), ',')
  }

  /** A binding the text form can express. */
  ghost predicate Expressible(b: Binding) {
    && b.id != [] && Trimmed(b.id) && ':' !in b.id && ',' !in b.id
    && b.key != [] && Trimmed(b.key) && ',' !in b.key
  }

  ghost predicate AllExpressible(bs: seq<Binding>) {
    OneIdentityPerKey(bs) && forall i | 0 <= i < |bs| :: Expressible(bs[i])
  }

  /** Bindings read from entries are trimmed and free of separators. */
  lemma {:induction false} EntriesGiveExpressible(entries: seq<string>)
    requires FromEntries(entries).Good? && NoEmptyPart(FromEntries(entries).value)
    requires forall e | e in entries :: ',' !in e
    ensures forall i | 0 <= i < |FromEntries(entries).value| :: Expressible(FromEntries(entries).value[i])
  {
    if entries != [] {
      var front, entry := entries[..|entries| - 1], Strip(entries[|entries| - 1]);
      var got, all := FromEntries(front).value, FromEntries(entries).value;
      assert forall i | 0 <= i < |got| :: all[i] == got[i];
      EntriesGiveExpressible(front);
      if entry != [] {
        var (a, b) := Partition(entry, ':').value;
        PartitionSplits(entry, ':');
        StripTrims(entries[|entries| - 1]);
        StripTrims(a);
        StripTrims(b);
        assert all[|got|] == Binding(Strip(a), Strip(b));
        assert forall c | c in a || c in b :: c in entry;
      }
    }
  }

  lemma PrintOneReads(b: Binding)
    requires Expressible(b)
    ensures Strip(PrintOne(b)) == PrintOne(b) && PrintOne(b) != [] && ',' !in PrintOne(b)
    ensures Partition(PrintOne(b), ':') == Some((b.id, b.key))
    ensures Strip(b.id) == b.id && Strip(b.key) == b.key
  {
    StripTrims(PrintOne(b));
    StripTrims(b.id);
    StripTrims(b.key);
    PartitionOfConcat(b.id, ':', b.key);
  }

  lemma {:induction false} PrintedEntriesRead(bs: seq<Binding>)
    requires forall i | 0 <= i < |bs| :: Expressible(bs[i])
    ensures FromEntries(Printed(bs)) == Good(bs)
  {
    if bs != [] {
      var front, b := bs[..|bs| - 1], bs[|bs| - 1];
      PrintedEntriesRead(front);
      assert Printed(bs)[..|bs| - 1] == Printed(front);
      PrintOneReads(b);
      assert bs == front + [b];
    }
  }

  lemma {:induction false} JoinEnds(parts: seq<string>, d: char)
    requires parts != [] && forall i | 0 <= i < |parts| :: parts[i] != []
    ensures var s := Join(parts, d);
            s != [] && s[0] == parts[0][0] && s[|s| - 1] == parts[|parts| - 1][|parts[|parts| - 1]| - 1]
  {
    if |parts| > 1 {
      JoinEnds(parts[1..], d);
      var rest := Join(parts[1..], d);
      assert Join(parts, d) == parts[0] + [d] + rest;
    }
  }

  /** The printed form of expressible bindings has nothing to strip. */
  lemma PrintIsTrimmed(bs: seq<Binding>)
    requires bs != [] && forall i | 0 <= i < |bs| :: Expressible(bs[i])
    ensures Print(bs) != [] && Strip(Print(bs)) == Print(bs)
            && bs[0].id != [] && Print(bs)[0] == bs[0].id[0]
  {
    JoinEnds(Printed(bs), ',');
    StripTrims(Print(bs));
  }

  /** Whatever the text form accepts is expressible in it. */
  lemma TextFormIsExpressible(raw: string, json: Json)
    requires !IsJson(Strip(raw)) && Parse(raw, json).Good?
    ensures AllExpressible(Parse(raw, json).value)
  {
    var text := Strip(raw);
    if text != [] {
      SplitPiecesLackDelimiter(text, ',');
      EntriesGiveExpressible(Split(text, ','));
    }
  }

  /**
   * Printing and parsing again gives the same bindings exactly when they are
   * expressible (for a text that is not taken as JSON).
   */
  lemma {:induction false} ParseOfPrint(bs: seq<Binding>, json: Json)
    requires !IsJson(Strip(Print(bs)))
    ensures Parse(Print(bs), json) == Good(bs) <==> AllExpressible(bs)
  {
    if Parse(Print(bs), json) == Good(bs) {
      TextFormIsExpressible(Print(bs), json);
    }
    if AllExpressible(bs) {
      PrintReads(bs, json);
    }
  }

  lemma {:induction false} PrintReads(bs: seq<Binding>, json: Json)
    requires !IsJson(Strip(Print(bs))) && AllExpressible(bs)
    ensures Parse(Print(bs), json) == Good(bs)
  {
    if bs == [] {
      StripTrims(Print(bs));
    } else {
      PrintIsTrimmed(bs);
      PrintSplits(bs);
      PrintedEntriesRead(bs);
    }
  }

  lemma {:induction false} PrintSplits(bs: seq<Binding>)
    requires bs != [] && forall i | 0 <= i < |bs| :: Expressible(bs[i])
    ensures Split(Print(bs), ',') == Printed(bs)
  {
    forall p | p in Printed(bs) ensures ',' !in p {
      var i :| 0 <= i < |bs| && p == PrintOne(bs[i]);
      PrintOneReads(bs[i]);
    }
    SplitOfJoin(Printed(bs), ',');
  }

  /** An accepted text setting can be printed and read back, unless its first id begins with a brace. */
  lemma TextFormRoundTrips(raw: string, json: Json)
    requires !IsJson(Strip(raw)) && Parse(raw, json).Good?
    ensures var bs := Parse(raw, json).value;
            !(bs != [] && bs[0].id[..1] == "{") ==> Parse(Print(bs), json) == Good(bs)
  {
    var bs := Parse(raw, json).value;
    TextFormIsExpressible(raw, json);
    if bs == [] {
      StripTrims(Print(bs));
      ParseOfPrint(bs, json);
    } else if bs[0].id[..1] != "{" {
      PrintIsTrimmed(bs);
      assert bs[0].id[..1] == [bs[0].id[0]];
      ParseOfPrint(bs, json);
    }
  }

  // ---------------------------------------------------------------- //
  // What the setting says
  // ---------------------------------------------------------------- //

  /** The member's value is this key, or lists it. */
  predicate HoldsKey(v: Value, key: string) {
    (v.Key? && v.key == key) || (v.Keys? && Some(key) in v.keys)
  }

  /** The member's value is no key and no list of keys. */
  predicate HoldsOther(v: Value) {
    v.Other? || (v.Keys? && None in v.keys)
  }

  /** `b` is the stripped name of some member with one of its keys, stripped. */
  ghost predicate FromMember(members: seq<(string, Value)>, b: Binding) {
    exists m, key :: m in members && HoldsKey(m.1, key) && Strip(m.0) == b.id && Strip(key) == b.key
  }

  lemma {:induction false} BindAllBinds(id: string, keys: seq<Option<string>>)
    ensures BindAll(id, keys) == Bad(JsonValueNotKeys) <==> None in keys
    ensures BindAll(id, keys).Good? <==> None !in keys
    ensures BindAll(id, keys).Good? ==> forall b ::
              b in BindAll(id, keys).value <==>
                exists key :: Some(key) in keys && b.id == Strip(id) && b.key == Strip(key)
  {
    if keys != [] {
      var front, last := keys[..|keys| - 1], keys[|keys| - 1];
      assert keys == front + [last];
      BindAllBinds(id, front);
      if BindAll(id, keys).Good? {
        var so := BindAll(id, front).value;
        assert BindAll(id, keys).value == so + [Binding(Strip(id), Strip(last.value))];
        forall b ensures b in BindAll(id, keys).value
                    <==> exists key :: Some(key) in keys && b.id == Strip(id) && b.key == Strip(key)
        {
          if b == Binding(Strip(id), Strip(last.value)) {
            assert Some(last.value) in keys;
          } else if key :| Some(key) in keys && b.id == Strip(id) && b.key == Strip(key) {
            assert Some(key) != last && Some(key) in front;
          }
        }
      }
    }
  }

  lemma MemberBinds(m: (string, Value))
    ensures var more := BindAll(m.0, MemberKeys(m.1));
            && (more == Bad(JsonValueNotKeys) <==> HoldsOther(m.1)) && (more.Good? <==> !HoldsOther(m.1))
            && (more.Good? ==> forall b ::
                  b in more.value <==> exists key :: HoldsKey(m.1, key) && Strip(m.0) == b.id && Strip(key) == b.key)
  {
    BindAllBinds(m.0, MemberKeys(m.1));
    assert forall key :: Some(key) in MemberKeys(m.1) <==> HoldsKey(m.1, key);
  }

  ghost predicate MembersBind(members: seq<(string, Value)>) {
    var pairs := FromMembers(members);
    && (pairs == Bad(JsonValueNotKeys) <==> exists m :: m in members && HoldsOther(m.1))
    && (pairs.Good? <==> forall m | m in members :: !HoldsOther(m.1))
    && (pairs.Good? ==> forall b :: b in pairs.value <==> FromMember(members, b))
  }

  lemma {:induction false} MembersBindOneMore(front: seq<(string, Value)>, m: (string, Value))
    requires MembersBind(front)
    ensures MembersBind(front + [m])
  {
    var members := front + [m];
    assert members[..|front|] == front && forall x :: x in members <==> x in front || x == m;
    MemberBinds(m);
    if FromMembers(members).Good? {
      var so, more := FromMembers(front).value, BindAll(m.0, MemberKeys(m.1)).value;
      assert FromMembers(members).value == so + more;
      forall b ensures b in FromMembers(members).value <==> FromMember(members, b) {
        if b in more {
          var key :| HoldsKey(m.1, key) && Strip(m.0) == b.id && Strip(key) == b.key;
          assert m in members;
        }
        if FromMember(members, b) {
          var x, key :| x in members && HoldsKey(x.1, key) && Strip(x.0) == b.id && Strip(key) == b.key;
          assert x in front ==> FromMember(front, b);
        }
      }
    }
  }

  lemma {:induction false} FromMembersBinds(members: seq<(string, Value)>)
    ensures MembersBind(members)
  {
    if members != [] {
      assert members == members[..|members| - 1] + [members[|members| - 1]];
      FromMembersBinds(members[..|members| - 1]);
      MembersBindOneMore(members[..|members| - 1], members[|members| - 1]);
    }
  }

  /** What a parse comes to, by what is wrong with the setting, in the order it is checked. */
  ghost predicate Judges(parsed: Parsed<seq<Binding>>, unreadable: bool, empty: bool, shared: bool) {
    && (parsed == Bad(EmptyPart) <==> !unreadable && empty)
    && (parsed == Bad(SharedKey) <==> !unreadable && !empty && shared)
    && (parsed.Good? <==> !unreadable && !empty && !shared)
  }

  ghost predicate MemberEmpty(members: seq<(string, Value)>) {
    exists b :: FromMember(members, b) && (b.id == "" || b.key == "")
  }

  ghost predicate MembersShare(members: seq<(string, Value)>) {
    exists b, c :: FromMember(members, b) && FromMember(members, c) && b.key == c.key && b.id != c.id
  }

  lemma MemberChecks(members: seq<(string, Value)>)
    requires MembersBind(members) && FromMembers(members).Good?
    ensures var bs := FromMembers(members).value;
            (MemberEmpty(members) <==> !NoEmptyPart(bs)) && (MembersShare(members) <==> !OneIdentityPerKey(bs))
  {
    var bs := FromMembers(members).value;
    assert forall i | 0 <= i < |bs| :: bs[i] in bs;
  }

  /**
   * The JSON form, which a leading brace announces. An accepted object binds
   * exactly its members' names to their keys, both stripped; it is refused for
   * its values iff some member holds anything but keys, for an empty part iff
   * one of the bindings has one, and for a shared key iff two of them differ in
   * the name alone.
   */
  lemma JsonFormBinds(raw: string, json: Json)
    requires Strip(raw) != [] && Strip(raw)[0] == '{'
    ensures json.Malformed? <==> Parse(raw, json) == Bad(BadJson)
    ensures json.NotObject? <==> Parse(raw, json) == Bad(JsonNotObject)
    ensures json.Object? ==>
              var members := json.members;
              var other := exists m :: m in members && HoldsOther(m.1);
              && (Parse(raw, json) == Bad(JsonValueNotKeys) <==> other)
              && Judges(Parse(raw, json), other, MemberEmpty(members), MembersShare(members))
              && (Parse(raw, json).Good? ==> forall b :: b in Parse(raw, json).value <==> FromMember(members, b))
  {
    if json.Object? {
      FromMembersBinds(json.members);
      if FromMembers(json.members).Good? {
        MemberChecks(json.members);
      }
    }
  }

  /** `b` is a non-blank piece of the text, cut at its first colon. */
  ghost predicate FromPiece(e: string, b: Binding) {
    exists id, key :: Strip(e) == id + ":" + key && ':' !in id && Strip(id) == b.id && Strip(key) == b.key
  }

  ghost predicate FromPieces(entries: seq<string>, b: Binding) {
    exists e :: e in entries && FromPiece(e, b)
  }

  predicate Bare(e: string) {
    Strip(e) != [] && ':' !in Strip(e)
  }

  /** What one piece binds, by its first colon. */
  lemma PieceBinds(e: string, b: Binding)
    ensures var parts := Partition(Strip(e), ':');
            FromPiece(e, b) <==> parts.Some? && b == Binding(Strip(parts.value.0), Strip(parts.value.1))
  {
    PartitionSplits(Strip(e), ':');
    if FromPiece(e, b) {
      var id, key :| Strip(e) == id + ":" + key && ':' !in id && Strip(id) == b.id && Strip(key) == b.key;
      PartitionOfConcat(id, ':', key);
    }
    var parts := Partition(Strip(e), ':');
    if parts.Some? && b == Binding(Strip(parts.value.0), Strip(parts.value.1)) {
      assert Strip(e) == parts.value.0 + ":" + parts.value.1;
    }
  }

  ghost predicate SomeBare(entries: seq<string>) {
    exists e :: e in entries && Bare(e)
  }

  lemma BareOneMore(front: seq<string>, e: string)
    ensures SomeBare(front + [e]) <==> SomeBare(front) || Bare(e)
  {
    assert forall x :: x in front + [e] <==> x in front || x == e;
  }

  ghost predicate EntriesBind(entries: seq<string>) {
    var pairs := FromEntries(entries);
    && (pairs == Bad(BareKey) <==> SomeBare(entries))
    && (pairs.Good? <==> !SomeBare(entries))
    && (pairs.Good? ==> forall b :: b in pairs.value <==> FromPieces(entries, b))
  }

  lemma EntriesOneMore(front: seq<string>, e: string)
    ensures var so, parts := FromEntries(front), Partition(Strip(e), ':');
            FromEntries(front + [e])
            == if so.Bad? || Strip(e) == [] then so
               else if parts.None? then Bad(BareKey)
               else Good(so.value + [Binding(Strip(parts.value.0), Strip(parts.value.1))])
  {
    assert (front + [e])[..|front|] == front;
  }

  lemma PiecesOneMore(front: seq<string>, e: string, b: Binding)
    ensures FromPieces(front + [e], b) <==> FromPieces(front, b) || FromPiece(e, b)
  {
    assert forall x :: x in front + [e] <==> x in front || x == e;
  }

  lemma {:induction false} EntriesBindOneMore(front: seq<string>, e: string)
    requires EntriesBind(front)
    ensures EntriesBind(front + [e])
  {
    EntriesOneMore(front, e);
    PartitionSplits(Strip(e), ':');
    BareOneMore(front, e);
    if FromEntries(front + [e]).Good? {
      forall b ensures b in FromEntries(front + [e]).value <==> FromPieces(front + [e], b) {
        PiecesOneMore(front, e, b);
        PieceBinds(e, b);
      }
    }
  }

  lemma {:induction false} FromEntriesBinds(entries: seq<string>)
    ensures EntriesBind(entries)
  {
    if entries != [] {
      assert entries == entries[..|entries| - 1] + [entries[|entries| - 1]];
      FromEntriesBinds(entries[..|entries| - 1]);
      EntriesBindOneMore(entries[..|entries| - 1], entries[|entries| - 1]);
    }
  }

  ghost predicate PieceEmpty(pieces: seq<string>) {
    exists b :: FromPieces(pieces, b) && (b.id == "" || b.key == "")
  }

  ghost predicate PiecesShare(pieces: seq<string>) {
    exists b, c :: FromPieces(pieces, b) && FromPieces(pieces, c) && b.key == c.key && b.id != c.id
  }

  lemma PieceChecks(pieces: seq<string>)
    requires EntriesBind(pieces) && FromEntries(pieces).Good?
    ensures var bs := FromEntries(pieces).value;
            (PieceEmpty(pieces) <==> !NoEmptyPart(bs)) && (PiecesShare(pieces) <==> !OneIdentityPerKey(bs))
  {
    var bs := FromEntries(pieces).value;
    assert forall i | 0 <= i < |bs| :: bs[i] in bs;
  }

  /** The text form: the same for the comma-separated pieces, each cut at its first colon. */
  lemma TextFormBinds(raw: string, json: Json)
    requires Strip(raw) != [] && Strip(raw)[0] != '{'
    ensures var pieces := Split(Strip(raw), ',');
            && (Parse(raw, json) == Bad(BareKey) <==> SomeBare(pieces))
            && Judges(Parse(raw, json), SomeBare(pieces), PieceEmpty(pieces), PiecesShare(pieces))
            && (Parse(raw, json).Good? ==> forall b :: b in Parse(raw, json).value <==> FromPieces(pieces, b))
  {
    var pieces := Split(Strip(raw), ',');
    FromEntriesBinds(pieces);
    if FromEntries(pieces).Good? {
      PieceChecks(pieces);
    }
  }
}
