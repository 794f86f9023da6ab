/** The canonical intents of a fork and of a send, and what equality of their hashes decides. */
module Intents {
  import opened Wrappers
  import opened Utf16
  import opened CanonicalJson
  import opened AuditChain

  datatype Provider = OpenAi | Anthropic | Codex | ClaudeCode

  datatype BoundaryMode = AfterAttempt | BeforeAttemptOutput

  function ProviderText(p: Provider): Text
  {
    match p
    case OpenAi => Key("openai")
    case Anthropic => Key("anthropic")
    case Codex => Key("codex")
    case ClaudeCode => Key("claude_code")
  }

  function ModeText(m: BoundaryMode): Text
  {
    if m.AfterAttempt? then Key("after_attempt") else Key("before_attempt_output")
  }

  /** The resolved fork: identifiers in lower case, the triple after inheritance. */
  datatype ForkIntent = ForkIntent(
    conversationId: Text, parentBranchId: Text, turnId: Text, attemptId: Text, mode: BoundaryMode,
    provider: Provider, surface: Text, model: Text)

  datatype SendIntent = SendIntent(conversationId: Text, branchId: Text, native: Json)

  /** `buildForkIntent`. */
  function BuildForkIntent(conversationId: Text, parentBranchId: Text, turnId: Text, attemptId: Text,
                           mode: BoundaryMode, provider: Provider, surface: Text, model: Text): ForkIntent
  {
    ForkIntent(Lower(conversationId), Lower(parentBranchId), Lower(turnId), Lower(attemptId), mode, provider, surface,
               model)
  }

  /** `buildSendIntent`. */
  function BuildSendIntent(conversationId: Text, branchId: Text, native: Json): SendIntent
  {
    SendIntent(Lower(conversationId), Lower(branchId), native)
  }

  function ForkJson(i: ForkIntent): Json
  {
    Obj([
      Member(Key("contract"), Str(Key("govai.ai_conversation_fork_intent.v1"))),
      Member(Key("conversation_id"), Str(i.conversationId)),
      Member(Key("parent_branch_id"), Str(i.parentBranchId)),
      Member(Key("forked_from_turn_id"), Str(i.turnId)),
      Member(Key("forked_from_attempt_id"), Str(i.attemptId)),
      Member(Key("boundary_mode"), Str(ModeText(i.mode))),
      Member(Key("provider"), Str(ProviderText(i.provider))),
      Member(Key("surface"), Str(i.surface)),
      Member(Key("model"), Str(i.model))])
  }

  function SendJson(i: SendIntent): Json
  {
    Obj([
      Member(Key("contract"), Str(Key("govai.ai_conversation_send_intent.v1"))),
      Member(Key("conversation_id"), Str(i.conversationId)),
      Member(Key("branch_id"), Str(i.branchId)),
      Member(Key("native_request"), i.native)])
  }

  /** SHA-256 over the UTF-8 bytes of the canonical text. */
  function IntentHash(crypto: Crypto, v: Json): Bytes
  {
    var text := StableCanonicalJson(v);
    if text.None? then [] else crypto.sha256(crypto.utf8(text.value))
  }

  /** No two canonical texts share a digest: the one assumption about SHA-256 made here. */
  ghost predicate CollisionFree(crypto: Crypto)
  {
    forall v, w | StableCanonicalJson(v).Some? && StableCanonicalJson(w).Some? ::
      IntentHash(crypto, v) == IntentHash(crypto, w) ==> StableCanonicalJson(v) == StableCanonicalJson(w)
  }

  /** A unit as that many ones and a zero. */
  function Tally(n: nat): Bytes { seq(n, i => 1) + [0] }

  function Tallies(t: Text): Bytes
  {
    if |t| == 0 then [] else Tally(t[0]) + Tallies(t[1..])
  }

  lemma TallyPrefixFree(m: nat, n: nat, a: Bytes, b: Bytes)
    requires Tally(m) + a == Tally(n) + b
    ensures m == n && a == b
  {
    assert (Tally(m) + a)[m] == 0 && forall k | 0 <= k < m :: (Tally(m) + a)[k] == 1;
    assert (Tally(n) + b)[n] == 0 && forall k | 0 <= k < n :: (Tally(n) + b)[k] == 1;
    assert (Tally(m) + a)[m + 1..] == a && (Tally(n) + b)[n + 1..] == b;
  }

  lemma {:induction false} TalliesInjective(t: Text, u: Text)
    requires Tallies(t) == Tallies(u)
    ensures t == u
  {
    if |t| > 0 && |u| > 0 {
      TallyPrefixFree(t[0], u[0], Tallies(t[1..]), Tallies(u[1..]));
      TalliesInjective(t[1..], u[1..]);
      assert t == [t[0]] + t[1..] && u == [u[0]] + u[1..];
    }
  }

  /** The assumption can be met, whatever the other primitives are. */
  lemma CollisionFreeExists(uuid: Text -> Option<Text>, hex: Bytes -> Text, hmac: (HmacKey, Bytes) -> Bytes)
    ensures CollisionFree(Crypto(uuid, t => Tallies(t), hex, bytes => bytes, hmac))
  {
    hide StableCanonicalJson, Tallies;
    var crypto := Crypto(uuid, t => Tallies(t), hex, bytes => bytes, hmac);
    forall v, w | StableCanonicalJson(v).Some? && StableCanonicalJson(w).Some?
                  && IntentHash(crypto, v) == IntentHash(crypto, w)
      ensures StableCanonicalJson(v) == StableCanonicalJson(w)
    {
      TalliesInjective(StableCanonicalJson(v).value, StableCanonicalJson(w).value);
    }
  }

  function ForkIntentHash(crypto: Crypto, i: ForkIntent): Bytes { IntentHash(crypto, ForkJson(i)) }

  function SendIntentHash(crypto: Crypto, i: SendIntent): Bytes { IntentHash(crypto, SendJson(i)) }

  // ---------------------------------------------------------------------------------------
  // Objects with the same keys at the same places
  // ---------------------------------------------------------------------------------------

  lemma SamePlaces(ms: seq<Member>, ns: seq<Member>)
    requires DistinctKeys(ms) && |ns| == |ms| && forall k | 0 <= k < |ms| :: ns[k].key == ms[k].key
    ensures Same(Obj(ms), Obj(ns)) <==> forall i | 0 <= i < |ms| :: Same(ms[i].value, ns[i].value)
  {
    if Same(Obj(ms), Obj(ns)) {
      forall i | 0 <= i < |ms| ensures Same(ms[i].value, ns[i].value) {
        var j := Partner(Obj(ms), Obj(ns), i);
        assert ns[j].key == ms[j].key;
      }
    }
    if forall i | 0 <= i < |ms| :: Same(ms[i].value, ns[i].value) {
      forall i | 0 <= i < |ms| ensures HasSame(ms[i], ns) { assert ns[i].key == ms[i].key; }
      forall j | 0 <= j < |ns| ensures HasKey(ms, ns[j].key) { assert ms[j].key == ns[j].key; }
    }
  }

  lemma {:induction false} StableReadPlain(v: Json)
    requires Plain(v)
    ensures StableRead(v) == v
    decreases v
  {
    if v.Arr? {
      forall i | 0 <= i < |v.items| { StableReadPlain(v.items[i]); }
      assert StableReadItems(v.items) == v.items;
    } else if v.Obj? {
      forall i | 0 <= i < |v.members| ensures StableReadMembers(v.members)[i] == v.members[i] {
        StableReadPlain(v.members[i].value);
      }
      assert StableReadMembers(v.members) == v.members;
    }
  }

  /** Plain values always print. */
  lemma PlainPrints(v: Json)
    requires WellFormed(v) && Plain(v)
    ensures StableCanonicalJson(v).Some?
  {
    StableReadPlain(v);
    StableIsRender(v);
  }

  lemma HashDecides(crypto: Crypto, v: Json, w: Json)
    requires CollisionFree(crypto) && WellFormed(v) && WellFormed(w) && Plain(v) && Plain(w)
    ensures IntentHash(crypto, v) == IntentHash(crypto, w) <==> Same(v, w)
  {
    hide WellFormed, Plain, Same, StableCanonicalJson, StableRead;
    PlainPrints(v);
    PlainPrints(w);
    StableReadPlain(v);
    StableReadPlain(w);
    StableCanonicalJsonDecides(v, w);
  }

  // ---------------------------------------------------------------------------------------
  // What the hashes decide
  // ---------------------------------------------------------------------------------------

  function ForkCode(i: nat): int
  {
    if i == 0 then 8116
    else if i == 1 then 15100
    else if i == 2 then 16100
    else if i == 3 then 19100
    else if i == 4 then 22100
    else if i == 5 then 13101
    else if i == 6 then 8114
    else if i == 7 then 7101
    else 5108
  }

  lemma ForkCodesDistinct(i: nat, j: nat)
    requires i < j < 9
    ensures ForkCode(i) != ForkCode(j)
  {
  }

  lemma ForkJsonKeys(i: ForkIntent)
    ensures var ms := ForkJson(i).members;
            |ms| == 9 && forall k | 0 <= k < 9 :: |ms[k].key| > 0 && NameCode(ms[k].key) == ForkCode(k)
  {
    hide Key, ModeText, ProviderText, NameCode;
    KeyCode("contract", 8116);
    KeyCode("conversation_id", 15100);
    KeyCode("parent_branch_id", 16100);
    KeyCode("forked_from_turn_id", 19100);
    KeyCode("forked_from_attempt_id", 22100);
    KeyCode("boundary_mode", 13101);
    KeyCode("provider", 8114);
    KeyCode("surface", 7101);
    KeyCode("model", 5108);
  }

  lemma ForkJsonShape(i: ForkIntent)
    ensures DistinctKeys(ForkJson(i).members) && |ForkJson(i).members| == 9
    ensures WellFormed(ForkJson(i)) && Plain(ForkJson(i))
  {
    ForkJsonKeys(i);
    hide Key, ModeText, ProviderText, NameCode, ForkCode;
    var ms := ForkJson(i).members;
    forall j, k | 0 <= j < k < 9 ensures ms[j].key != ms[k].key { ForkCodesDistinct(j, k); }
  }

  lemma SendJsonShape(i: SendIntent)
    requires WellFormed(i.native) && Plain(i.native)
    ensures DistinctKeys(SendJson(i).members) && |SendJson(i).members| == 4
    ensures WellFormed(SendJson(i)) && Plain(SendJson(i))
  {
    hide Key, NameCode;
    KeyCode("contract", 8116);
    KeyCode("conversation_id", 15100);
    KeyCode("branch_id", 9100);
    KeyCode("native_request", 14116);
  }

  lemma VocabularyDistinct(p: Provider, q: Provider, m: BoundaryMode, n: BoundaryMode)
    ensures ProviderText(p) == ProviderText(q) <==> p == q
    ensures ModeText(m) == ModeText(n) <==> m == n
  {
    assert |ProviderText(p)| == match p case OpenAi => 6 case Anthropic => 9 case Codex => 5 case ClaudeCode => 11;
    assert |ProviderText(q)| == match q case OpenAi => 6 case Anthropic => 9 case Codex => 5 case ClaudeCode => 11;
    assert |ModeText(m)| == if m.AfterAttempt? then 13 else 21;
    assert |ModeText(n)| == if n.AfterAttempt? then 13 else 21;
  }

  /** Two forks have one hash exactly when they are the same resolved fork. */
  lemma ForkHashDecides(crypto: Crypto, i: ForkIntent, j: ForkIntent)
    requires CollisionFree(crypto)
    ensures ForkIntentHash(crypto, i) == ForkIntentHash(crypto, j) <==> i == j
  {
    hide ForkJson, CollisionFree, IntentHash, WellFormed, Plain, Same;
    ForkJsonShape(i);
    ForkJsonShape(j);
    HashDecides(crypto, ForkJson(i), ForkJson(j));
    ForkJsonDecides(i, j);
  }

  lemma ForkJsonDecides(i: ForkIntent, j: ForkIntent)
    ensures Same(ForkJson(i), ForkJson(j)) <==> i == j
  {
    ForkJsonShape(i);
    VocabularyDistinct(i.provider, j.provider, i.mode, j.mode);
    hide Key, ModeText, ProviderText, WellFormed, Plain, DistinctKeys, Same;
    var ms, ns := ForkJson(i).members, ForkJson(j).members;
    SamePlaces(ms, ns);
    forall k | 0 <= k < 9 ensures Same(ms[k].value, ns[k].value) <==> ms[k].value == ns[k].value {
      SameText(ms[k].value, ns[k].value);
    }
    if Same(ForkJson(i), ForkJson(j)) {
      assert ms[1].value == ns[1].value && ms[2].value == ns[2].value && ms[3].value == ns[3].value;
      assert ms[4].value == ns[4].value && ms[5].value == ns[5].value && ms[6].value == ns[6].value;
      assert ms[7].value == ns[7].value && ms[8].value == ns[8].value;
    }
  }

  lemma SameText(v: Json, w: Json)
    requires v.Str? && w.Str?
    ensures Same(v, w) <==> v == w
  {
  }

  /** Two sends have one hash exactly when they name one branch of one conversation and their native
      requests are equal up to the order of object keys. */
  lemma SendHashDecides(crypto: Crypto, i: SendIntent, j: SendIntent)
    requires CollisionFree(crypto)
    requires WellFormed(i.native) && Plain(i.native) && WellFormed(j.native) && Plain(j.native)
    ensures SendIntentHash(crypto, i) == SendIntentHash(crypto, j)
            <==> i.conversationId == j.conversationId && i.branchId == j.branchId && Same(i.native, j.native)
  {
    hide Key, CollisionFree, IntentHash, WellFormed, DistinctKeys, Plain;
    SendJsonShape(i);
    SendJsonShape(j);
    HashDecides(crypto, SendJson(i), SendJson(j));
    var ms, ns := SendJson(i).members, SendJson(j).members;
    SamePlaces(ms, ns);
    if Same(SendJson(i), SendJson(j)) {
      assert Same(ms[1].value, ns[1].value) && Same(ms[2].value, ns[2].value) && Same(ms[3].value, ns[3].value);
    }
  }
}
