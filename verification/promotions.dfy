/** The promotions API: the paginated list and the creation of a promotion
    (app/api/promotions/route.ts), and the read-only check that a code can be redeemed
    by the caller (app/api/promotions/validate/route.ts). Creation normalises the code;
    validation looks the code up exactly as given and ignores `is_active` and the
    date window. */
module Promotions {
  import opened Wrappers
  import opened Strings
  import opened Envelope
  import opened Schema
  import opened Db
  import opened Auth
  import opened Query
  import opened Paging

  /** The values of PromotionType. */
  const PromotionTypes: set<string> := {"discount", "fixed", "free_shipping"}

  /** The database calls of the promotion handlers; a call named in `faults` fails. */
  datatype PromotionStep =
    | ReadPage         // the list's ranged read
    | FindCode         // creation's `.single()` duplicate lookup (error ignored: no duplicate)
    | InsertPromotion
    | FindPromotion    // validation's `.single()` code lookup (error ignored: not found)
    | FindUsage        // validation's `.single()` usage lookup (error ignored: not used)

  // ---------------------------------------------------------------- list

  /** The rows of one page of the list, newest id first. */
  function PromotionRows(promotions: seq<Promotion>, ids: seq<nat>): (rows: seq<Payload>)
    requires forall i :: 0 <= i < |ids| ==> ids[i] < |promotions|
    ensures |rows| == |ids|
    ensures forall i :: 0 <= i < |ids| ==> rows[i] == PromotionRow(ids[i], promotions[ids[i]])
  {
    seq(|ids|, i requires 0 <= i < |ids| => PromotionRow(ids[i], promotions[ids[i]]))
  }

  /** GET: one page of promotions, newest first, with its pagination block. */
  method ListPromotions(db: Store, header: Option<string>, verify: Verifier,
                        page: Option<int>, pageSize: Option<int>, faults: map<PromotionStep, string>)
    returns (r: Reply)
    ensures RequireAuth(header, verify).Rejected? ==> r == RequireAuth(header, verify).reply
    ensures RequireAuth(header, verify).Authorized? && ReadPage in faults ==> r == Failure(500, faults[ReadPage])
    ensures RequireAuth(header, verify).Authorized? && ReadPage !in faults ==>
      var p := ClampPage(page);
      var size := PromotionsPageSize(pageSize);
      var total := |db.promotions|;
      && r.status == 200 && r.body.PagedJson?
      && r.body.page == PaginatedSuccess(
           PromotionRows(db.promotions, PageIds(total, PageRange(p, size).from, size)),
           Pagination(p, size, total, PromotionsTotalPages(total, size)),
           "Promotions fetched successfully")
  {
    var auth := RequireAuth(header, verify);
    if IsAuthFailed(auth) {
      return auth.reply;
    }
    var p := ClampPage(page);
    var size := PromotionsPageSize(pageSize);
    var range := PageRange(p, size);
    if ReadPage in faults {
      return Failure(500, faults[ReadPage]);
    }
    var total := |db.promotions|;
    var rows := PromotionRows(db.promotions, PageIds(total, range.from, size));
    var pagination := Pagination(p, size, total, PromotionsTotalPages(total, size));
    r := Reply(200, PagedJson(PaginatedSuccess(rows, pagination, "Promotions fetched successfully")));
  }

  // ---------------------------------------------------------------- create

  /** Trimmed and without lower-case ASCII letters. */
  predicate Normalised(code: string) {
    Trimmed(code) && forall i :: 0 <= i < |code| ==> !('a' <= code[i] <= 'z')
  }

  /** `r` is `code[a..b]` with its ASCII letters upper-cased, and only whitespace of
      `code` lies outside `[a, b)`. */
  predicate UpperOfCut(r: string, code: string, a: nat, b: nat)
    requires a <= b <= |code|
  {
    WhitespaceOutside(code, a, b) && |r| == b - a
    && forall i :: 0 <= i < |r| ==> r[i] == UpperChar(code[a + i])
  }

  /** `code.trim().toUpperCase()`: the form every stored code has. The stored code is
      the input with its surrounding whitespace cut off (all of it, as the result is
      trimmed) and its letters upper-cased. */
  function SanitizeCode(code: string): (r: string)
    ensures Normalised(r) && |r| <= |code|
    ensures Normalised(code) ==> r == code
    ensures exists a, b :: 0 <= a <= b <= |code| && UpperOfCut(r, code, a, b)
  {
    UpperNormalises(Trim(code));
    UpperOfTrim(code);
    ToUpper(Trim(code))
  }

  lemma UpperOfTrim(code: string)
    ensures exists a, b :: 0 <= a <= b <= |code| && UpperOfCut(ToUpper(Trim(code)), code, a, b)
  {
    var t := Trim(code);
    var a, b :| 0 <= a <= b <= |code| && t == code[a..b] && WhitespaceOutside(code, a, b);
    UpperCut(t, code, a, b);
  }

  lemma UpperCut(t: string, code: string, a: nat, b: nat)
    requires a <= b <= |code| && t == code[a..b] && WhitespaceOutside(code, a, b)
    ensures UpperOfCut(ToUpper(t), code, a, b)
  {
  }

  /** Upper-casing a character never makes or unmakes whitespace, and never leaves a
      lower-case letter. */
  lemma UpperCharNormal(c: char)
    ensures IsWhitespace(UpperChar(c)) <==> IsWhitespace(c)
    ensures !('a' <= UpperChar(c) <= 'z')
  {
  }

  /** Upper-casing a trimmed text gives a normalised one, and leaves a normalised text as it is. */
  lemma UpperNormalises(t: string)
    requires Trimmed(t)
    ensures Normalised(ToUpper(t))
    ensures Normalised(t) ==> ToUpper(t) == t
  {
    var u := ToUpper(t);
    if t != [] {
      UpperCharNormal(t[0]);
      UpperCharNormal(t[|t| - 1]);
    }
    forall i | 0 <= i < |u| ensures !('a' <= u[i] <= 'z') {
      UpperCharNormal(t[i]);
    }
  }

  /** Normalising a normalised code changes nothing. */
  lemma SanitizeIdempotent(code: string)
    ensures SanitizeCode(SanitizeCode(code)) == SanitizeCode(code)
  {
    var s := SanitizeCode(code);
    assert Normalised(s);
  }

  /** Codes that differ only in ASCII letter case normalise to the same stored code. */
  lemma SanitizeIgnoresCase(code: string)
    ensures SanitizeCode(ToLower(code)) == SanitizeCode(code)
  {
    TrimLower(code);
    var t := Trim(code);
    var a, b := ToUpper(ToLower(t)), ToUpper(t);
    forall i | 0 <= i < |t| ensures a[i] == b[i] {
      UpperOfLower(t[i]);
    }
  }

  lemma UpperOfLower(c: char)
    ensures UpperChar(LowerChar(c)) == UpperChar(c)
  {
    if 'A' <= c <= 'Z' {
      assert LowerChar(c) as int == c as int + 32;
    }
  }

  /** Surrounding whitespace, on either side and in any amount, does not change the
      stored code. */
  lemma SanitizeIgnoresPadding(code: string, pre: string, post: string)
    requires forall i :: 0 <= i < |pre| ==> IsWhitespace(pre[i])
    requires forall i :: 0 <= i < |post| ==> IsWhitespace(post[i])
    ensures SanitizeCode(pre + code + post) == SanitizeCode(code)
  {
    PaddedTrim(code, pre, post);
  }

  /** Lower-casing commutes with trimming: no whitespace character is a letter. */
  lemma TrimLower(s: string)
    ensures Trim(ToLower(s)) == ToLower(Trim(s))
  {
    TrimStartLower(s);
    TrimEndLower(TrimStart(s));
  }

  lemma {:induction false} TrimStartLower(s: string)
    ensures TrimStart(ToLower(s)) == ToLower(TrimStart(s))
  {
    if s != [] {
      var l := ToLower(s);
      assert l[0] == LowerChar(s[0]);
      assert IsWhitespace(l[0]) <==> IsWhitespace(s[0]);
      if IsWhitespace(s[0]) {
        assert l[1..] == ToLower(s[1..]);
        TrimStartLower(s[1..]);
      }
    }
  }

  lemma {:induction false} TrimEndLower(s: string)
    ensures TrimEnd(ToLower(s)) == ToLower(TrimEnd(s))
  {
    if s != [] {
      var n := |s| - 1;
      var l := ToLower(s);
      assert l[n] == LowerChar(s[n]);
      assert IsWhitespace(l[n]) <==> IsWhitespace(s[n]);
      if IsWhitespace(s[n]) {
        assert l[..n] == ToLower(s[..n]);
        TrimEndLower(s[..n]);
      }
    }
  }

  /** Trimming `pre + s + post` is trimming `s`. */
  lemma PaddedTrim(s: string, pre: string, post: string)
    requires forall i :: 0 <= i < |pre| ==> IsWhitespace(pre[i])
    requires forall i :: 0 <= i < |post| ==> IsWhitespace(post[i])
    ensures Trim(pre + s + post) == Trim(s)
  {
    var padded := pre + s + post;
    assert padded == pre + (s + post);
    StartPad(pre, s + post);
    assert TrimStart(padded) == TrimStart(s + post);
    TrimEndStart(s, post);
    assert Trim(padded) == TrimEnd(TrimStart(padded));
  }

  lemma {:induction false} StartPad(pad: string, s: string)
    requires forall i :: 0 <= i < |pad| ==> IsWhitespace(pad[i])
    ensures TrimStart(pad + s) == TrimStart(s)
  {
    if pad != [] {
      assert (pad + s)[1..] == pad[1..] + s;
      StartPad(pad[1..], s);
    } else {
      assert pad + s == s;
    }
  }

  lemma {:induction false} EndPad(s: string, pad: string)
    requires forall i :: 0 <= i < |pad| ==> IsWhitespace(pad[i])
    ensures TrimEnd(s + pad) == TrimEnd(s)
  {
    if pad != [] {
      var n := |pad| - 1;
      assert (s + pad)[..|s + pad| - 1] == s + pad[..n];
      EndPad(s, pad[..n]);
    } else {
      assert s + pad == s;
    }
  }

  lemma TrimEndStart(s: string, pad: string)
    requires forall i :: 0 <= i < |pad| ==> IsWhitespace(pad[i])
    ensures TrimEnd(TrimStart(s + pad)) == Trim(s)
  {
    var a := TrimStart(s);
    if a == [] {
      assert forall i :: 0 <= i < |s + pad| ==> IsWhitespace((s + pad)[i]);
      AllWhite(s + pad);
    } else {
      StartSuffix(s, pad);
      EndPad(a, pad);
    }
  }

  lemma {:induction false} AllWhite(s: string)
    requires forall i :: 0 <= i < |s| ==> IsWhitespace(s[i])
    ensures TrimStart(s) == []
  {
    if s != [] {
      AllWhite(s[1..]);
    }
  }

  lemma {:induction false} StartSuffix(s: string, pad: string)
    requires TrimStart(s) != []
    ensures TrimStart(s + pad) == TrimStart(s) + pad
  {
    if s != [] && IsWhitespace(s[0]) {
      assert (s + pad)[1..] == s[1..] + pad;
      StartSuffix(s[1..], pad);
    }
  }

  /** The promotion fields of a creation request. */
  datatype PromotionRequest = PromotionRequest(
    code: Option<string>, promotionType: Option<string>, value: Option<int>,
    startsAt: Option<string>, expiresAt: Option<string>,
    description: Option<string>, isActive: Option<bool>)

  /** The filter `.eq('code', code)`. */
  function HasCode(code: string): Promotion -> bool {
    (p: Promotion) => p.code == code
  }

  /** No two promotions share a code. */
  ghost predicate UniqueCodes(promotions: seq<Promotion>) {
    forall i, j :: 0 <= i < j < |promotions| ==> promotions[i].code != promotions[j].code
  }

  /** The row creation inserts for a valid request: the normalised code, and null
      for an absent start, expiry or description. */
  function NewPromotionRow(req: PromotionRequest, user: UserId): (p: Promotion)
    requires req.code.Some? && req.promotionType.Some?
    ensures p.code == SanitizeCode(req.code.value) && p.promotionType == req.promotionType.value
    ensures p.startsAt == req.startsAt && p.expiresAt == req.expiresAt && p.description == req.description
    ensures p.value == req.value && p.isActive == req.isActive && p.createdBy == user
  {
    Promotion(SanitizeCode(req.code.value), req.promotionType.value, req.value,
              req.startsAt, req.expiresAt, user, req.description, req.isActive)
  }

  /** With codes unique, a promotion whose code the `.single()` lookup does not find
      can be appended and codes stay unique. */
  lemma InsertKeepsCodesUnique(promotions: seq<Promotion>, p: Promotion)
    requires UniqueCodes(promotions)
    requires Single(promotions, HasCode(p.code)).None?
    ensures UniqueCodes(promotions + [p])
  {
    SingleIsFirst(promotions, HasCode(p.code));
    var after := promotions + [p];
    forall i, j | 0 <= i < j < |after| ensures after[i].code != after[j].code {
      assert after[i] == promotions[i];
      assert !HasCode(p.code)(promotions[i]);
    }
  }

  /** POST: create a promotion. Checks run in order: required fields, type,
      duplicate code; then the insert. */
  method CreatePromotion(db: Store, header: Option<string>, verify: Verifier, req: PromotionRequest,
                         faults: map<PromotionStep, string>)
    returns (r: Reply)
    modifies db`promotions
    ensures r.status != 201 ==> db.promotions == old(db.promotions)
    ensures RequireAuth(header, verify).Rejected? ==> r == RequireAuth(header, verify).reply
    ensures RequireAuth(header, verify).Authorized? ==>
      if req.code == None || req.code == Some("") || req.promotionType == None || req.promotionType == Some("") then
        r == Failure(400, "Code and type are required")
      else if req.promotionType.value !in PromotionTypes then
        r == Failure(400, "Invalid promotion type")
      else
        var row := NewPromotionRow(req, RequireAuth(header, verify).payload.sub);
        if FindCode !in faults && Single(old(db.promotions), HasCode(row.code)).Some? then
          r == Failure(400, "Promotion code already exists")
        else if InsertPromotion in faults then
          r == Failure(500, faults[InsertPromotion])
        else
          r == Success(201, Some(Created(|old(db.promotions)|)), "Promotion created successfully")
          && db.promotions == old(db.promotions) + [row]
    ensures FindCode !in faults && UniqueCodes(old(db.promotions)) ==> UniqueCodes(db.promotions)
  {
    var auth := RequireAuth(header, verify);
    if IsAuthFailed(auth) {
      return auth.reply;
    }
    if req.code == None || req.code == Some("") || req.promotionType == None || req.promotionType == Some("") {
      return Failure(400, "Code and type are required");
    }
    if req.promotionType.value !in PromotionTypes {
      return Failure(400, "Invalid promotion type");
    }
    var row := NewPromotionRow(req, auth.payload.sub);
    var existing := if FindCode in faults then None else Single(db.promotions, HasCode(row.code));
    if existing.Some? {
      return Failure(400, "Promotion code already exists");
    }
    if InsertPromotion in faults {
      return Failure(500, faults[InsertPromotion]);
    }
    if FindCode !in faults && UniqueCodes(db.promotions) {
      InsertKeepsCodesUnique(db.promotions, row);
    }
    r := Success(201, Some(Created(|db.promotions|)), "Promotion created successfully");
    db.promotions := db.promotions + [row];
  }

  // ---------------------------------------------------------------- validate

  /** The filter `.eq('promotion_id', id).eq('user_id', user)`. */
  function UsedBy(id: nat, user: UserId): PromotionUsage -> bool {
    (u: PromotionUsage) => u.promotionId == id && u.userId == user
  }

  /** The promotion the validation lookup finds for `code`, taken as given. */
  function FoundPromotion(promotions: seq<Promotion>, code: string, faults: map<PromotionStep, string>): Option<nat> {
    if FindPromotion in faults then None else Single(promotions, HasCode(code))
  }

  /** Whether the usage lookup finds a usage of promotion `id` by `user`. */
  function FoundUsage(usages: seq<PromotionUsage>, id: nat, user: UserId, faults: map<PromotionStep, string>): bool {
    FindUsage !in faults && Single(usages, UsedBy(id, user)).Some?
  }

  /** POST validate: whether the caller may redeem `code`. Reads only. */
  function ValidatePromotion(db: Store, header: Option<string>, verify: Verifier, code: Option<string>,
                             faults: map<PromotionStep, string>): (r: Reply)
    reads db
    ensures RequireAuth(header, verify).Rejected? ==> r == RequireAuth(header, verify).reply
    ensures RequireAuth(header, verify).Authorized? && (code == None || code == Some("")) ==>
      r == Failure(400, "Code is required")
    ensures RequireAuth(header, verify).Authorized? && code.Some? && code.value != "" ==>
      match FoundPromotion(db.promotions, code.value, faults)
      case None => r == Failure(404, "Promotion not found")
      case Some(id) =>
        if FoundUsage(db.promotionUsages, id, RequireAuth(header, verify).payload.sub, faults) then
          r == Failure(400, "Promotion already used")
        else
          var p := db.promotions[id];
          r == Success(200, Some(ValidPromotion(id, p.code, p.promotionType, p.value, p.description)),
                       "Promotion validated successfully")
    ensures r.status == 200 ==>
      r.body.response.data.Some? && r.body.response.data.value.ValidPromotion?
      && code.Some? && r.body.response.data.value.code == code.value
  {
    var auth := RequireAuth(header, verify);
    if IsAuthFailed(auth) then auth.reply
    else if code == None || code == Some("") then Failure(400, "Code is required")
    else match FoundPromotion(db.promotions, code.value, faults)
      case None => Failure(404, "Promotion not found")
      case Some(id) =>
        if FoundUsage(db.promotionUsages, id, auth.payload.sub, faults) then Failure(400, "Promotion already used")
        else
          var p := db.promotions[id];
          Success(200, Some(ValidPromotion(id, p.code, p.promotionType, p.value, p.description)),
                  "Promotion validated successfully")
  }

  /** Validation does not normalise: when every stored code is in normalised form, a
      code with an upper-case letter is not found through its lower-case spelling,
      though creation treats the two spellings as one code. */
  lemma ValidationIsCaseSensitive(promotions: seq<Promotion>, code: string, faults: map<PromotionStep, string>, i: nat)
    requires forall j :: 0 <= j < |promotions| ==> Normalised(promotions[j].code)
    requires i < |code| && 'A' <= code[i] <= 'Z'
    ensures FoundPromotion(promotions, ToLower(code), faults).None?
    ensures SanitizeCode(ToLower(code)) == SanitizeCode(code)
  {
    var lower := ToLower(code);
    assert 'a' <= lower[i] <= 'z';
    forall j | 0 <= j < |promotions| ensures !HasCode(lower)(promotions[j]) {
      var c := promotions[j].code;
      assert |c| <= i || c[i] != lower[i];
    }
    SanitizeIgnoresCase(code);
  }
}
