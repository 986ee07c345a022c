/** Client-side token helpers (shared/utils/token.ts): reading the token cookie out
    of `document.cookie` and the structural checks of a JWS compact serialisation
    (section 7.1 of RFC 7515) before its payload is base64-decoded. */
module Token {
  import opened Wrappers
  import opened Strings

  /** Index of the first row that starts with `prefix`: `rows.find(row => row.startsWith(prefix))`. */
  function FindRow(rows: seq<string>, prefix: string): (r: Option<nat>)
    ensures r.Some? ==> r.value < |rows| && prefix <= rows[r.value]
    ensures r.Some? ==> forall j :: 0 <= j < r.value ==> !(prefix <= rows[j])
    ensures r.None? <==> forall j :: 0 <= j < |rows| ==> !(prefix <= rows[j])
  {
    if rows == [] then None
    else if prefix <= rows[0] then Some(0)
    else match FindRow(rows[1..], prefix)
      case None => None
      case Some(i) => Some(i + 1)
  }

  /** The `; `-separated rows of a cookie string. */
  function CookieRows(cookie: string): (rows: seq<string>)
    ensures |rows| >= 1 && Join(rows, "; ") == cookie
  {
    JoinSplit(cookie, "; ");
    SplitOn(cookie, "; ")
  }

  /** getToken: the text between the first and the second `=` of the first row that
      starts with `name=`, or `None` when no row does. */
  function GetToken(cookie: string, name: string): (r: Option<string>)
    ensures r.None? <==> forall j :: 0 <= j < |CookieRows(cookie)| ==> !(name + "=" <= CookieRows(cookie)[j])
  {
    var rows := CookieRows(cookie);
    match FindRow(rows, name + "=")
    case None => None
    case Some(i) => Some(RowValue(rows[i], name))
  }

  /** `row.split('=')[1]` for a row known to start with `name=`. */
  function RowValue(row: string, name: string): (v: string)
    requires name + "=" <= row
    ensures '=' !in v
    ensures '=' !in name ==> name + "=" + v <= row
  {
    assert row[|name|] == '=';
    SplitHeadChar(row, '=');
    var rest := row[|SplitOn(row, "=")[0]| + 1..];
    SplitHeadChar(rest, '=');
    RowValueAfterName(row, name, SplitOn(row, "=")[0], rest, SplitOn(rest, "=")[0]);
    SplitOn(row, "=")[1]
  }

  /** With no `=` in the name, the first field is the name and the value follows its `=`. */
  lemma RowValueAfterName(row: string, name: string, first: string, rest: string, v: string)
    requires name + "=" <= row
    requires |first| < |row| && '=' !in first && first == row[..|first|] && row[|first|] == '='
    requires rest == row[|first| + 1..] && |v| <= |rest| && v == rest[..|v|]
    ensures '=' !in name ==> name + "=" + v <= row
  {
    if '=' !in name {
      assert row[|name|] == '=';
      assert forall j :: 0 <= j < |name| ==> row[j] == name[j] && row[j] != '=';
      assert forall j :: 0 <= j < |first| ==> row[j] == first[j] && row[j] != '=';
      assert |first| == |name|;
      assert row[..|name| + 1 + |v|] == name + "=" + v;
    }
  }

  /** The value read from a row `name=v` is `v` up to its first `=`: the whole of `v`
      exactly when `v` has no `=`, a truncated prefix otherwise. */
  lemma TokenValueOfRow(name: string, v: string)
    requires '=' !in name
    ensures var t := RowValue(name + "=" + v, name);
      t <= v && '=' !in t && (t == v <==> '=' !in v)
  {
    SplitFirstChar(name, v, '=');
    SplitHeadChar(v, '=');
  }

  /** When several rows start with `name=`, the first one is read. */
  lemma GetTokenFirstRow(cookie: string, name: string, i: nat)
    requires i < |CookieRows(cookie)| && name + "=" <= CookieRows(cookie)[i]
    requires forall j :: 0 <= j < i ==> !(name + "=" <= CookieRows(cookie)[j])
    ensures GetToken(cookie, name) == Some(RowValue(CookieRows(cookie)[i], name))
  {
    var r := FindRow(CookieRows(cookie), name + "=");
    assert r == Some(i);
  }

  /** `s.replace(/-/g, '+').replace(/_/g, '/')`: the base64url alphabet (section 5 of
      RFC 4648) mapped onto the base64 alphabet (section 4). */
  function Base64UrlToBase64(s: string): (r: string)
    ensures |r| == |s|
    ensures forall i :: 0 <= i < |s| ==>
      r[i] == (if s[i] == '-' then '+' else if s[i] == '_' then '/' else s[i])
    ensures '-' !in r && '_' !in r
  {
    ReplaceAll(ReplaceAll(s, '-', '+'), '_', '/')
  }

  /** decodeToken up to the base64 decoding: the failure it throws, or the base64
      text of the payload part. */
  function DecodeToken(token: string): (r: Result<string>)
    ensures token == "" ==> r == Err("Token is missing")
    ensures token != "" && |SplitOn(token, ".")| != 3 ==> r == Err("Invalid token structure")
    ensures r.Ok? ==> r.value == Base64UrlToBase64(SplitOn(token, ".")[1])
  {
    if token == "" then Err("Token is missing")
    else
      var parts := SplitOn(token, ".");
      if |parts| != 3 then Err("Invalid token structure")
      else Ok(Base64UrlToBase64(parts[1]))
  }

  /** A token passes the structure checks exactly when it is non-empty and has
      exactly two dots, i.e. three parts. */
  lemma DecodeTokenStructure(token: string)
    ensures DecodeToken(token).Ok? <==> token != "" && CountChar(token, '.') == 2
  {
    SplitCountChar(token, '.');
  }
}
