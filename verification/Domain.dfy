/** Values shared by the handler, the cache, the store and the extractor. */
module Domain {

  datatype Option<+T> = None | Some(value: T) {
    predicate IsFailure() { None? }
    function PropagateFailure<U>(): Option<U> requires None? { None }
    function Extract(): T requires Some? { value }
  }

  newtype byte = b: int | 0 <= b < 256

  /** Uploaded bytes. */
  type Content = seq<byte>

  predicate IsHex(c: char) { '0' <= c <= '9' || 'a' <= c <= 'f' }

  /** A hex-encoded SHA-256. */
  type Digest = s: string | |s| == 64 && forall i :: 0 <= i < |s| ==> IsHex(s[i])
    witness seq(64, i => '0')

  lemma DigestHasNoColon(h: Digest)
    ensures ':' !in h
  {
  }

  /** A JSON value; encoding and decoding between processes keep it. */
  datatype Json =
    | Null
    | Bool(b: bool)
    | Number(text: string)
    | String(s: string)
    | Array(items: seq<Json>)
    | Object(members: seq<(string, Json)>)

  datatype Meta = Meta(
    model: string, chars: nat, mode: string, images: nat, filename: string,
    contentSha256: string, cache: string)

  /** `extract.Result`. */
  datatype Result = Result(docType: string, data: Json, meta: Meta)

  /** The handler's stamp on a result it is about to persist and answer with. */
  function Stamp(r: Result, sha: string, cache: string): Result {
    r.(meta := r.meta.(contentSha256 := sha, cache := cache))
  }

  /** What goes into Redis: `Meta.Cache` is cleared. */
  function Uncached(r: Result): Result { r.(meta := r.meta.(cache := "")) }

  /** The body of a 200 answer. */
  datatype Response = Response(docType: string, data: Json)

  function ToResponse(r: Result): Response { Response(r.docType, r.data) }

  /** How a command to Redis or the database ends: it works; it does nothing and fails; or it takes effect and
      the caller sees an error all the same, as after a timeout. */
  datatype Outcome = Works | Breaks | Unheard

  /** What preprocessing hands to the extractor. */
  datatype Document = Document(mime: string, filename: string, mode: string, chars: nat, images: nat)
}

/** Who a request is attributed to, whose quota it uses, and which consent it needs. */
module Identity {
  import opened Text
  import opened Domain

  datatype Kind = JWT | PAT

  function KindName(k: Kind): (s: string)
    ensures ':' !in s
  {
    match k case JWT => "jwt" case PAT => "pat"
  }

  lemma KindNameInjective(a: Kind, b: Kind)
    ensures KindName(a) == KindName(b) <==> a == b
  {
    assert KindName(JWT)[0] == 'j' && KindName(PAT)[0] == 'p';
  }

  datatype Principal = Principal(subject: string, client: string, email: string, kind: Kind)

  /** The request headers that matter for attribution. */
  datatype Headers = Headers(userSub: string, userEmail: string, forwardSecret: string, lgpdConsent: string)

  datatype Actor = Actor(subject: string, client: string, email: string)

  predicate IsM2M(p: Principal) {
    p.kind == JWT && (p.client == "pde-m2m" || (p.email == "" && HasPrefix(p.client, "pde-")))
  }

  /** `secret` is the configured forward secret, already trimmed. */
  predicate AcceptsUserForward(secret: string, h: Headers) {
    secret != "" && TrimSpace(h.forwardSecret) != "" && TrimSpace(h.forwardSecret) == secret
  }

  /** Attribution of rows and consents. */
  function ResolveActor(secret: string, p: Principal, h: Headers): Actor {
    if !IsM2M(p) || !AcceptsUserForward(secret, h) then Actor(p.subject, p.client, p.email)
    else
      var sub := TrimSpace(h.userSub);
      if sub == "" then Actor(p.subject, p.client, p.email)
      else
        var em := TrimSpace(h.userEmail);
        Actor(sub, p.client, if em != "" then em else p.email)
  }

  /** The id charged by the rate limiter. */
  function QuotaId(secret: string, p: Principal, h: Headers): string {
    var sub := TrimSpace(h.userSub);
    if IsM2M(p) && AcceptsUserForward(secret, h) && sub != "" then sub else p.subject
  }

  /** The two are computed apart, in two files, and agree on every request. */
  lemma QuotaIsActor(secret: string, p: Principal, h: Headers)
    ensures QuotaId(secret, p, h) == ResolveActor(secret, p, h).subject
    ensures p.subject != "" ==> QuotaId(secret, p, h) != ""
  {
  }

  /** Forwarded user headers count only for a machine token that also brings the secret: in every
      other case the actor is the token's own subject, whatever the headers say. */
  lemma ForwardFailsClosed(secret: string, p: Principal, h: Headers)
    ensures ResolveActor(secret, p, h).subject != p.subject ==>
              && p.kind == JWT && secret != "" && TrimSpace(h.forwardSecret) == secret
              && ResolveActor(secret, p, h).subject == TrimSpace(h.userSub)
    ensures ResolveActor(secret, p, h).client == p.client
  {
  }

  /** Attribution, exactly, in terms of the request: the user forwarded by the gateway counts if and only if the token
      is a machine's (a JWT of the client "pde-m2m", or of a "pde-" client without an email), the secret is configured
      and matches, and the user header is not blank; in every other case the token speaks for itself. */
  lemma AttributionExact(secret: string, p: Principal, h: Headers)
    ensures var machine := p.kind == JWT && (p.client == "pde-m2m" || (p.email == "" && HasPrefix(p.client, "pde-")));
            var matches := secret != "" && TrimSpace(h.forwardSecret) == secret;
            var forwarded := machine && matches && TrimSpace(h.userSub) != "";
            var a := ResolveActor(secret, p, h);
            && a.subject == (if forwarded then TrimSpace(h.userSub) else p.subject)
            && a.email == (if forwarded && TrimSpace(h.userEmail) != "" then TrimSpace(h.userEmail) else p.email)
            && a.client == p.client
            && QuotaId(secret, p, h) == (if forwarded then TrimSpace(h.userSub) else p.subject)
  {
    hide TrimSpace;
  }

  /** The gateway's own token, with the secret, speaks for the user in the headers, white space trimmed. */
  lemma GatewaySpeaksForUser(sub: string, left: string, right: string)
    requires sub != "" && !IsSpace(sub[0]) && !IsSpace(sub[|sub| - 1]) && AllSpace(left) && AllSpace(right)
    ensures var p, h := Principal("svc", "pde-m2m", "", JWT), Headers(left + sub + right, "", "key", "");
            && ResolveActor("key", p, h) == Actor(sub, "pde-m2m", "") && QuotaId("key", p, h) == sub
            && ResolveActor("", p, h).subject == "svc" && ResolveActor("other", p, h).subject == "svc"
            && ResolveActor("key", p.(kind := PAT), h).subject == "svc"
            && ResolveActor("key", p.(client := "web"), h).subject == "svc"
            && ResolveActor("key", p.(client := "pde-x"), h).subject == sub
            && ResolveActor("key", p.(client := "pde-x", email := "m@x"), h).subject == "svc"
  {
    hide TrimSpace, IsSpace;
    TrimSpaceExact(left, sub, right);
    KeyIsTrimmed();
  }

  lemma KeyIsTrimmed()
    ensures TrimSpace("key") == "key" && TrimSpace("") == ""
  {
    hide TrimSpace;
    TrimSpaceOfTrimmed("key");
    TrimSpaceOfTrimmed("");
  }

  const POLICY_EXTRACT := "lgpd-extract-v1"
  const POLICY_CV := "lgpd-cv-store-v1"

  function RequiredPolicy(docType: string): string {
    if docType == "curriculum_vitae" then POLICY_CV else POLICY_EXTRACT
  }

  /** `strings.EqualFold` for a given choice of one representative per case-folding orbit. */
  predicate EqualFold(fold: char -> char, a: string, b: string) { Lower(fold, a) == Lower(fold, b) }

  predicate IsTruthy(v: string) { v in {"1", "true", "yes", "y", "on"} }

  predicate ConsentAccepted(fold: char -> char, lower: char -> char, form: string, h: Headers, docType: string) {
    var f := TrimSpace(form);
    var v := if f == "" then TrimSpace(h.lgpdConsent) else f;
    var required := RequiredPolicy(docType);
    EqualFold(fold, v, required) || (required == POLICY_EXTRACT && IsTruthy(Lower(lower, v)))
  }

  /** A curriculum is accepted with exactly one consent: the text "lgpd-cv-store-v1" in any casing, trimmed, from the
      form or else from the header. */
  lemma CurriculumConsent(fold: char -> char, lower: char -> char, form: string, h: Headers)
    ensures var v := if TrimSpace(form) != "" then TrimSpace(form) else TrimSpace(h.lgpdConsent);
            ConsentAccepted(fold, lower, form, h, "curriculum_vitae") <==>
              Lower(fold, v) == Lower(fold, "lgpd-cv-store-v1")
  {
    hide TrimSpace;
  }

  /** Every other type is accepted with exactly the text "lgpd-extract-v1" in any casing or one of the five yes-words in
      any casing, trimmed, from the form or else from the header. */
  lemma OtherConsent(fold: char -> char, lower: char -> char, form: string, h: Headers, docType: string)
    requires docType != "curriculum_vitae"
    ensures var v := if TrimSpace(form) != "" then TrimSpace(form) else TrimSpace(h.lgpdConsent);
            ConsentAccepted(fold, lower, form, h, docType) <==>
              || Lower(fold, v) == Lower(fold, "lgpd-extract-v1")
              || Lower(lower, v) in ["1", "true", "yes", "y", "on"]
  {
    hide TrimSpace;
  }

  /** A yes-word in the form, with white space around it, is consent for an invoice and not for a curriculum. */
  lemma YesIsForExtractionOnly(fold: char -> char, lower: char -> char, left: string, w: string, right: string,
                               h: Headers)
    requires LowersAscii(lower) && AllSpace(left) && AllSpace(right)
    requires w in ["1", "true", "yes", "y", "on", "TRUE", "Yes"]
    ensures ConsentAccepted(fold, lower, left + w + right, h, "invoice_nf")
    ensures !ConsentAccepted(fold, lower, left + w + right, h, "curriculum_vitae")
  {
    hide TrimSpace, ConsentAccepted;
    WordIsPlain(w);
    TrimSpaceExact(left, w, right);
    YesWordLowers(lower, w);
    OtherConsent(fold, lower, left + w + right, h, "invoice_nf");
    CurriculumConsent(fold, lower, left + w + right, h);
    assert |Lower(fold, w)| <= 4 && |Lower(fold, "lgpd-cv-store-v1")| == 16;
  }

  lemma WordIsPlain(w: string)
    requires w in ["1", "true", "yes", "y", "on", "TRUE", "Yes"]
    ensures 0 < |w| <= 4 && !IsSpace(w[0]) && !IsSpace(w[|w| - 1])
  {
  }

  lemma YesWordLowers(lower: char -> char, w: string)
    requires LowersAscii(lower) && w in ["1", "true", "yes", "y", "on", "TRUE", "Yes"]
    ensures Lower(lower, w) in ["1", "true", "yes", "y", "on"]
  {
    var t := Lower(lower, w);
    if w == "TRUE" {
      assert t == "true";
    } else if w == "Yes" {
      assert t == "yes";
    } else {
      assert t == w;
    }
  }

  /** A consent that is good for plain extraction is never good for a curriculum, whichever way characters
      fold: legacy yes-values and the extraction policy are refused there. */
  lemma CurriculumNeedsItsOwn(fold: char -> char, lower: char -> char, form: string, h: Headers, docType: string)
    requires docType != "curriculum_vitae"
    ensures !(ConsentAccepted(fold, lower, form, h, docType)
              && ConsentAccepted(fold, lower, form, h, "curriculum_vitae"))
  {
    hide TrimSpace;
    var f := TrimSpace(form);
    var v := if f == "" then TrimSpace(h.lgpdConsent) else f;
    assert EqualFold(fold, v, POLICY_CV) ==> |v| == 16;
    assert EqualFold(fold, v, POLICY_EXTRACT) ==> |v| == 15;
    assert IsTruthy(Lower(lower, v)) ==> |v| <= 4;
  }

  /** The consent header has no say, whatever it holds, if and only if the form has a value. */
  lemma FormHidesHeader(fold: char -> char, lower: char -> char, form: string, h: Headers, docType: string)
    ensures (forall a, b :: ConsentAccepted(fold, lower, form, h.(lgpdConsent := a), docType)
                            == ConsentAccepted(fold, lower, form, h.(lgpdConsent := b), docType))
            <==> TrimSpace(form) != ""
  {
    hide TrimSpace;
    if TrimSpace(form) == "" {
      var policy := RequiredPolicy(docType);
      TrimSpaceOfTrimmed(policy);
      TrimSpaceOfTrimmed("");
      assert ConsentAccepted(fold, lower, form, h.(lgpdConsent := policy), docType);
      assert |Lower(fold, policy)| > |Lower(fold, "")| == |Lower(lower, "")| == 0;
      assert !ConsentAccepted(fold, lower, form, h.(lgpdConsent := ""), docType);
    }
  }
}
