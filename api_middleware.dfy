/** The form-action wrapper `handle` of src/apiMiddleware.ts: it runs an
    action on the request body and the uploaded files, then redirects back
    with an optional `_notif` query that reports how the action went. The
    action, the percent-encoding of the query and the file conversion are
    parameters. */
module ApiMiddleware {
  import opened Wrappers
  import opened Strings

  /** The integers a JavaScript number holds exactly. `String` prints each of
      them as its plain decimal digits; other numbers are not modelled. */
  type SafeInt = n: int | -9007199254740991 <= n <= 9007199254740991

  /** The JavaScript values an action can resolve to, as far as the redirect
      depends on them. */
  datatype JsValue = Undefined | Null | Bool(b: bool) | Num(n: SafeInt) | Str(s: string) | Obj

  /** JavaScript truthiness: exactly five of the modelled values are falsy. */
  predicate Truthy(v: JsValue)
    ensures Truthy(v) <==> v !in {Undefined, Null, Bool(false), Num(0), Str("")}
  {
    match v
    case Undefined => false
    case Null => false
    case Bool(b) => b
    case Num(n) => n != 0
    case Str(s) => s != ""
    case Obj => true
  }

  predicate IsDigits(s: string)
  {
    forall i :: 0 <= i < |s| ==> '0' <= s[i] <= '9'
  }

  /** The number a string of decimal digits denotes. */
  function DecimalValue(s: string): nat
    requires IsDigits(s)
    decreases |s|
  {
    if s == [] then 0
    else DecimalValue(s[..|s| - 1]) * 10 + (s[|s| - 1] as int - '0' as int)
  }

  /** The decimal digits of `n`, without leading zeros. */
  function NatText(n: nat): (r: string)
    ensures |r| >= 1 && IsDigits(r)
    ensures DecimalValue(r) == n
    ensures r[0] == '0' ==> r == "0"
  {
    var d := "0123456789"[n % 10];
    assert d as int - '0' as int == n % 10;
    if n < 10 then [d]
    else
      var r := NatText(n / 10) + [d];
      assert r[..|r| - 1] == NatText(n / 10);
      r
  }

  /** `String(v)`, the text `URLSearchParams` stores for a value. A number's
      text reads back as that number; only the empty string prints empty. */
  function ToText(v: JsValue): (r: string)
    ensures r == "" <==> v == Str("")
    ensures v.Str? ==> r == v.s
    ensures v.Num? ==>
              var digits := if v.n < 0 then r[1..] else r;
              && |r| >= 1 && (r[0] == '-' <==> v.n < 0)
              && |digits| >= 1 && IsDigits(digits) && (digits[0] == '0' ==> digits == "0")
              && DecimalValue(digits) == (if v.n < 0 then -v.n else v.n)
  {
    match v
    case Undefined => "undefined"
    case Null => "null"
    case Bool(b) => if b then "true" else "false"
    case Num(n) =>
      if n < 0 then
        var r := "-" + NatText(-n);
        assert r[1..] == NatText(-n);
        r
      else NatText(n)
    case Str(s) => s
    case Obj => "[object Object]"
  }

  /** How the awaited action ended. */
  datatype ActionOutcome = Returned(value: JsValue) | Threw

  /** The contents of the redirect's `URLSearchParams`. */
  datatype Query = NoNotif | Notif(text: string)

  const UnexpectedError: string := "unexpectedError"

  /** `queryParams.toString()`, with the form-encoding of a value as `encode`. */
  function QueryString(q: Query, encode: string -> string): (r: string)
    ensures r == "" <==> q.NoNotif?
    ensures q.Notif? ==> StartsWith(r, "_notif=") && r[7..] == encode(q.text)
  {
    match q
    case NoNotif => ""
    case Notif(text) => "_notif=" + encode(text)
  }

  /** Where the redirect goes before its query: the configured target if one
      was given, else the referer without its own query; None when neither
      exists and `referer!.split` throws. */
  function RedirectBase(redirectTo: Option<string>, referer: Option<string>): (base: Option<string>)
    ensures base.None? <==> redirectTo.None? && referer.None?
    ensures redirectTo.Some? ==> base == redirectTo
    ensures redirectTo.None? && referer.Some? ==>
              base.Some? && StartsWith(referer.value, base.value) && '?' !in base.value
              && (|base.value| < |referer.value| ==> referer.value[|base.value|] == '?')
  {
    match redirectTo
    case Some(target) => Some(target)
    case None =>
      match referer
      case Some(r) => Some(Split(r, '?')[0])
      case None => None
  }

  /** The response `handle` produces: one redirect, or the TypeError thrown
      when there is neither a redirect target nor a referer. */
  datatype Response = Redirect(location: string) | Unhandled

  /** `handleAction` (src/apiMiddleware.ts:22-33) once the action has run. */
  method HandleAction(outcome: ActionOutcome, redirectTo: Option<string>, referer: Option<string>,
                      encode: string -> string)
    returns (response: Response)
    ensures response.Redirect? <==> redirectTo.Some? || referer.Some?
    ensures response.Redirect? ==>
              var base := RedirectBase(redirectTo, referer).value;
              && |response.location| > |base|
              && response.location[..|base|] == base
              && response.location[|base|] == '?'
              && response.location[|base| + 1..] == QueryString(NotifFor(outcome), encode)
  {
    var queryParams: Query;
    match outcome {
      case Returned(result) =>
        queryParams := if Truthy(result) then Notif(ToText(result)) else NoNotif;
      case Threw =>
        queryParams := Notif(UnexpectedError);
    }
    var base := RedirectBase(redirectTo, referer);
    if base.None? {
      response := Unhandled;
    } else {
      response := Redirect(base.value + "?" + QueryString(queryParams, encode));
      assert response.location[..|base.value|] == base.value;
      assert response.location[|base.value| + 1..] == QueryString(queryParams, encode);
    }
  }

  /** The notification an outcome produces. */
  function NotifFor(outcome: ActionOutcome): (q: Query)
    ensures q.NoNotif? <==> outcome.Returned? && !Truthy(outcome.value)
    ensures outcome.Threw? ==> q == Notif(UnexpectedError)
    ensures outcome.Returned? && Truthy(outcome.value) ==> q == Notif(ToText(outcome.value))
  {
    match outcome
    case Returned(result) => if Truthy(result) then Notif(ToText(result)) else NoNotif
    case Threw => Notif(UnexpectedError)
  }

  /** Redirecting back to the referer lands on the referer's page: cutting the
      redirect at its first `?` gives the referer cut the same way, and what
      follows that `?` is the query. */
  lemma BackToReferer(outcome: ActionOutcome, referer: string, encode: string -> string, location: string)
    requires location == Split(referer, '?')[0] + "?" + QueryString(NotifFor(outcome), encode)
    ensures Split(location, '?')[0] == Split(referer, '?')[0]
    ensures |location| > |Split(referer, '?')[0]|
    ensures location[|Split(referer, '?')[0]| + 1..] == QueryString(NotifFor(outcome), encode)
  {
    var base := Split(referer, '?')[0];
    var query := QueryString(NotifFor(outcome), encode);
    assert location == base + ['?'] + query;
    SplitAfterPiece(base, query, '?');
    assert location[|base| + 1..] == query;
  }

  // ---------------------------------------------------------------------
  // Uploaded files

  /** Every uploaded field holds at least one file, as the multipart parser
      creates a field only for a file it received. */
  ghost predicate NonEmptyFields<F>(uploaded: seq<(string, seq<F>)>)
  {
    forall i :: 0 <= i < |uploaded| ==> |uploaded[i].1| > 0
  }

  /** The object the `reduce` of src/apiMiddleware.ts:39-45 builds from the
      entries seen so far: each key bound to its first file, converted. */
  function FirstFiles<F, B>(uploaded: seq<(string, seq<F>)>, toBlob: F -> B): (files: map<string, B>)
    requires NonEmptyFields(uploaded)
    ensures files.Keys == set i | 0 <= i < |uploaded| :: uploaded[i].0
    decreases |uploaded|
  {
    if |uploaded| == 0 then map[]
    else
      var last := uploaded[|uploaded| - 1];
      var init := uploaded[..|uploaded| - 1];
      assert forall i :: 0 <= i < |init| ==> init[i] == uploaded[i];
      assert (set i | 0 <= i < |uploaded| :: uploaded[i].0) ==
             (set i | 0 <= i < |init| :: init[i].0) + {last.0};
      FirstFiles(init, toBlob)[last.0 := toBlob(last.1[0])]
  }

  /** Field names are distinct, as the keys of an object are. */
  ghost predicate DistinctKeys<F>(uploaded: seq<(string, seq<F>)>)
  {
    forall i, j :: 0 <= i < j < |uploaded| ==> uploaded[i].0 != uploaded[j].0
  }

  /** Each field keeps only its first file: the files after it are dropped. */
  lemma {:induction false} FirstFileKept<F, B>(uploaded: seq<(string, seq<F>)>, toBlob: F -> B, i: nat)
    requires NonEmptyFields(uploaded) && DistinctKeys(uploaded)
    requires i < |uploaded|
    ensures uploaded[i].0 in FirstFiles(uploaded, toBlob)
    ensures FirstFiles(uploaded, toBlob)[uploaded[i].0] == toBlob(uploaded[i].1[0])
    decreases |uploaded|
  {
    var n := |uploaded|;
    if i < n - 1 {
      var init := uploaded[..n - 1];
      assert init[i] == uploaded[i];
      FirstFileKept(init, toBlob, i);
      assert uploaded[n - 1].0 != uploaded[i].0;
    }
  }

  /** The `reduce` itself: the accumulator gains one key per entry. */
  method CollectFirstFiles<F, B>(uploaded: seq<(string, seq<F>)>, toBlob: F -> B) returns (acc: map<string, B>)
    requires NonEmptyFields(uploaded)
    ensures acc == FirstFiles(uploaded, toBlob)
  {
    acc := map[];
    var i := 0;
    while i < |uploaded|
      invariant 0 <= i <= |uploaded|
      invariant acc == FirstFiles(uploaded[..i], toBlob)
    {
      var (key, values) := uploaded[i];
      assert uploaded[..i + 1][..i] == uploaded[..i];
      acc := acc[key := toBlob(values[0])];
      i := i + 1;
    }
    assert uploaded[..i] == uploaded;
  }

  /** `handle` (src/apiMiddleware.ts:14-49): without a field list the action
      gets no files; with one (even an empty list, which is truthy) it gets
      each uploaded field's first file. Then the action runs once and its
      outcome decides the redirect. */
  method Handle<F, B>(multerFiles: Option<seq<string>>, uploaded: seq<(string, seq<F>)>, toBlob: F -> B,
                      action: map<string, B> -> ActionOutcome,
                      redirectTo: Option<string>, referer: Option<string>, encode: string -> string)
    returns (files: map<string, B>, response: Response)
    requires multerFiles.Some? ==> NonEmptyFields(uploaded)
    ensures multerFiles.None? ==> files == map[]
    ensures multerFiles.Some? ==> files == FirstFiles(uploaded, toBlob)
    ensures response.Redirect? <==> redirectTo.Some? || referer.Some?
    ensures response.Redirect? ==>
              response.location ==
                RedirectBase(redirectTo, referer).value + "?" + QueryString(NotifFor(action(files)), encode)
  {
    if multerFiles.Some? {
      files := CollectFirstFiles(uploaded, toBlob);
    } else {
      files := map[];
    }
    response := HandleAction(action(files), redirectTo, referer, encode);
    if response.Redirect? {
      var base := RedirectBase(redirectTo, referer).value;
      assert response.location == response.location[..|base|] + "?" + response.location[|base| + 1..];
    }
  }

}
