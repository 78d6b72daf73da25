/**
 * The decisions of the wpDiscuz user's actions (wordpress_wpdiscuz/actions.py): reading a
 * comment's nesting level from its class attribute, filtering comments by level, taking the
 * comment ids apart, the form a new comment or a reply is written in, with the author and
 * email it is submitted with, and the rating drawn for a post. The page's elements are given
 * by their attribute strings; the comments by others are what the page lists.
 */
module WpdiscuzActions {
  import opened Wrappers
  import opened Strings

  // ---------------------------------------------------------------- comment level

  /** The class marker that carries a comment's nesting level. */
  const LevelMarker: string := "wpd_comment_level-"

  predicate OccursAt(s: string, m: string, i: nat)
  {
    i + |m| <= |s| && s[i..i + |m|] == m
  }

  /** The last position below `n` at which `m` occurs in `s`. */
  function LastBelow(s: string, m: string, n: nat): (r: Option<nat>)
    ensures r.Some? ==> r.value < n && OccursAt(s, m, r.value) && forall j :: r.value < j < n ==> !OccursAt(s, m, j)
    ensures r.None? ==> forall j :: 0 <= j < n ==> !OccursAt(s, m, j)
    decreases n
  {
    if n == 0 then None
    else if OccursAt(s, m, n - 1) then Some(n - 1)
    else LastBelow(s, m, n - 1)
  }

  /** The text up to the first line break: what a `.` pattern can cross. */
  function FirstLine(s: string): (r: string)
    ensures '\n' !in r && |r| <= |s| && r == s[..|r|]
    ensures |r| < |s| ==> s[|r|] == '\n'
  {
    if |s| == 0 || s[0] == '\n' then "" else [s[0]] + FirstLine(s[1..])
  }

  /** The longest run of digits of `s` starting at `i`. */
  function DigitRun(s: string, i: nat): (r: string)
    requires i <= |s|
    ensures i + |r| <= |s| && r == s[i..i + |r|]
    ensures forall k :: 0 <= k < |r| ==> IsDigit(r[k])
    ensures i + |r| < |s| ==> !IsDigit(s[i + |r|])
    decreases |s| - i
  {
    if i < |s| && IsDigit(s[i]) then [s[i]] + DigitRun(s, i + 1) else ""
  }

  /**
   * The level the pattern `.*wpd_comment_level-(\d*).*` reads from a class attribute: the
   * greedy prefix makes it the digits after the last marker on the first line; no marker
   * means no match, and a marker without digits makes `int("")` raise.
   */
  function CommentLevel(cls: string): (r: Result<Option<nat>>)
  {
    var line := FirstLine(cls);
    match LastBelow(line, LevelMarker, |line| + 1)
    case None => Success(None)
    case Some(k) =>
      var digits := DigitRun(line, k + |LevelMarker|);
      if |digits| == 0 then Failure("invalid literal for int() with base 10: ''")
      else Success(Some(DigitsValue(digits)))
  }

  /** `_comment_is_max_level`: true iff a level is found and it is at most `maxLevel`. */
  function CommentIsMaxLevel(cls: string, maxLevel: int): (r: Result<bool>)
    ensures r.Failure? <==> CommentLevel(cls).Failure?
    ensures r.Success? ==> (r.value <==> CommentLevel(cls).value.Some? && CommentLevel(cls).value.value <= maxLevel)
  {
    match CommentLevel(cls)
    case Failure(e) => Failure(e)
    case Success(None) => Success(false)
    case Success(Some(level)) => Success(level <= maxLevel)
  }

  predicate NoChar(s: string, c: char)
  {
    forall k :: 0 <= k < |s| ==> s[k] != c
  }

  /**
   * A class attribute that names its level once, `p + "wpd_comment_level-" + digits + q`, is read
   * as that level: `p` and `q` hold no line break, `q` no further marker (no `w`) and does not
   * continue the digits.
   */
  lemma {:induction false} LevelRead(p: string, digits: string, q: string)
    requires NoChar(p, '\n') && NoChar(q, '\n') && NoChar(q, 'w')
    requires 0 < |digits| && forall k :: 0 <= k < |digits| ==> IsDigit(digits[k])
    requires |q| > 0 ==> !IsDigit(q[0])
    ensures CommentLevel(p + LevelMarker + digits + q) == Success(Some(DigitsValue(digits)))
  {
    LevelFacts(p, digits, q);
    LevelOf(p + LevelMarker + digits + q, |p|, digits);
  }

  /** Such an attribute is one line, its last marker is the one after `p`, and the digits follow it. */
  lemma {:induction false} LevelFacts(p: string, digits: string, q: string)
    requires NoChar(p, '\n') && NoChar(q, '\n') && NoChar(q, 'w')
    requires forall k :: 0 <= k < |digits| ==> IsDigit(digits[k])
    requires |q| > 0 ==> !IsDigit(q[0])
    ensures var s := p + LevelMarker + digits + q;
            FirstLine(s) == s && LastBelow(s, LevelMarker, |s| + 1) == Some(|p|)
            && |p| + |LevelMarker| <= |s| && DigitRun(s, |p| + |LevelMarker|) == digits
  {
    var s := p + LevelMarker + digits + q;
    NoBreakInMarkerLine(p, digits, q);
    NoLineBreak(s);
    MarkerIsLast(p, digits, q);
    DigitsAfter(p, digits, q);
  }

  /** The level read from a one-line attribute whose last marker at `k` is followed by `digits`. */
  lemma LevelOf(s: string, k: nat, digits: string)
    requires FirstLine(s) == s && LastBelow(s, LevelMarker, |s| + 1) == Some(k)
    requires k + |LevelMarker| <= |s| && DigitRun(s, k + |LevelMarker|) == digits && |digits| > 0
    ensures CommentLevel(s) == Success(Some(DigitsValue(digits)))
  {
  }

  lemma {:induction false} DigitsAfter(p: string, digits: string, q: string)
    requires forall k :: 0 <= k < |digits| ==> IsDigit(digits[k])
    requires |q| > 0 ==> !IsDigit(q[0])
    ensures DigitRun(p + LevelMarker + digits + q, |p| + |LevelMarker|) == digits
  {
    var s := p + LevelMarker + digits + q;
    DropPrefix(p + LevelMarker, digits, q);
    DigitRunOf(s, |p| + |LevelMarker|, digits, q);
  }

  lemma DropPrefix(a: string, b: string, c: string)
    ensures (a + b + c)[|a|..] == b + c
  {
  }

  /** An occurrence inside a prefix is an occurrence in the whole string. */
  lemma OccursInPrefix(s: string, n: nat, m: string, j: nat)
    requires n <= |s| && OccursAt(s[..n], m, j)
    ensures OccursAt(s, m, j)
  {
    assert s[..n][j..j + |m|] == s[j..j + |m|];
  }

  /** Such a comment is within a level limit iff its level is at most the limit. */
  lemma {:induction false} LevelWithin(p: string, digits: string, q: string, maxLevel: int)
    requires NoChar(p, '\n') && NoChar(q, '\n') && NoChar(q, 'w')
    requires 0 < |digits| && forall k :: 0 <= k < |digits| ==> IsDigit(digits[k])
    requires |q| > 0 ==> !IsDigit(q[0])
    ensures CommentIsMaxLevel(p + LevelMarker + digits + q, maxLevel) == Success(DigitsValue(digits) <= maxLevel)
  {
    LevelRead(p, digits, q);
    MaxLevelOf(p + LevelMarker + digits + q, DigitsValue(digits), maxLevel);
  }

  lemma MaxLevelOf(cls: string, level: nat, maxLevel: int)
    requires CommentLevel(cls) == Success(Some(level))
    ensures CommentIsMaxLevel(cls, maxLevel) == Success(level <= maxLevel)
  {
  }

  lemma MarkerIsLast(p: string, digits: string, q: string)
    requires NoChar(q, 'w')
    requires forall k :: 0 <= k < |digits| ==> IsDigit(digits[k])
    ensures var s := p + LevelMarker + digits + q;
            LastBelow(s, LevelMarker, |s| + 1) == Some(|p|)
  {
    var s := p + LevelMarker + digits + q;
    assert OccursAt(s, LevelMarker, |p|) by {
      assert s[|p|..|p| + |LevelMarker|] == LevelMarker;
    }
    NoWAfterMarker(p, digits, q);
    NoMarkerAfter(s, |p|);
  }

  lemma NoBreakInMarkerLine(p: string, digits: string, q: string)
    requires NoChar(p, '\n') && NoChar(q, '\n')
    requires forall k :: 0 <= k < |digits| ==> IsDigit(digits[k])
    ensures NoChar(p + LevelMarker + digits + q, '\n')
  {
    var s := p + LevelMarker + digits + q;
    forall j | 0 <= j < |s| ensures s[j] != '\n' {
      if j < |p| {
        assert s[j] == p[j];
      } else if j < |p| + |LevelMarker| {
        assert s[j] == LevelMarker[j - |p|];
      } else if j < |p| + |LevelMarker| + |digits| {
        assert s[j] == digits[j - |p| - |LevelMarker|];
      } else {
        assert s[j] == q[j - |p| - |LevelMarker| - |digits|];
      }
    }
  }

  lemma NoWAfterMarker(p: string, digits: string, q: string)
    requires NoChar(q, 'w')
    requires forall k :: 0 <= k < |digits| ==> IsDigit(digits[k])
    ensures var s := p + LevelMarker + digits + q;
            forall j :: |p| < j < |s| ==> s[j] != 'w'
  {
    var s := p + LevelMarker + digits + q;
    var start := |p| + |LevelMarker|;
    forall j | |p| < j < |s| ensures s[j] != 'w' {
      if j < start {
        assert s[j] == LevelMarker[j - |p|];
      } else if j < start + |digits| {
        assert s[j] == digits[j - start];
      } else {
        assert s[j] == q[j - start - |digits|];
      }
    }
  }

  /** The marker starts with `w`, so it cannot occur where no `w` is. */
  lemma NoMarkerAfter(s: string, pos: nat)
    requires forall j :: pos < j < |s| ==> s[j] != 'w'
    ensures forall j :: pos < j <= |s| ==> !OccursAt(s, LevelMarker, j)
  {
    forall j | pos < j <= |s| ensures !OccursAt(s, LevelMarker, j) {
      if j + |LevelMarker| <= |s| {
        assert s[j..j + |LevelMarker|][0] == s[j] && LevelMarker[0] == 'w';
      }
    }
  }

  lemma NoLineBreak(s: string)
    requires NoChar(s, '\n')
    ensures FirstLine(s) == s
    decreases |s|
  {
    if |s| > 0 {
      NoLineBreak(s[1..]);
    }
  }

  lemma {:induction false} DigitRunOf(s: string, i: nat, digits: string, q: string)
    requires i <= |s| && s[i..] == digits + q
    requires forall k :: 0 <= k < |digits| ==> IsDigit(digits[k])
    requires |q| > 0 ==> !IsDigit(q[0])
    ensures DigitRun(s, i) == digits
    decreases |digits|
  {
    if |digits| > 0 {
      assert s[i] == digits[0];
      assert s[i + 1..] == digits[1..] + q;
      DigitRunOf(s, i + 1, digits[1..], q);
      assert [digits[0]] + digits[1..] == digits;
    } else if i < |s| {
      assert s[i] == q[0];
    }
  }

  /** A class attribute without any marker has no level, so the comment is never within a level limit. */
  lemma NoMarkerNoLevel(cls: string, maxLevel: int)
    requires forall j :: 0 <= j <= |cls| ==> !OccursAt(cls, LevelMarker, j)
    ensures CommentIsMaxLevel(cls, maxLevel) == Success(false)
  {
    var line := FirstLine(cls);
    forall j | 0 <= j <= |line| ensures !OccursAt(line, LevelMarker, j) {
      if OccursAt(line, LevelMarker, j) {
        OccursInPrefix(cls, |line|, LevelMarker, j);
      }
    }
  }

  // ---------------------------------------------------------------- comment lists

  /**
   * `get_comments`: the comments by others (given by their class attributes), all of them when
   * there is no level limit, otherwise those within it; a class the level check raises on makes
   * the whole call raise.
   */
  function GetComments(byOthers: seq<string>, maxLevel: Option<int>): (r: Result<seq<string>>)
    ensures maxLevel.None? ==> r == Success(byOthers)
    ensures maxLevel.Some? ==>
              (r.Failure? <==> exists c :: c in byOthers && CommentIsMaxLevel(c, maxLevel.value).Failure?)
    ensures maxLevel.Some? && r.Success? ==>
              |r.value| <= |byOthers|
              && forall c :: c in r.value <==> c in byOthers && CommentIsMaxLevel(c, maxLevel.value) == Success(true)
  {
    match maxLevel
    case None => Success(byOthers)
    case Some(m) => WithinLevel(byOthers, m)
  }

  function WithinLevel(comments: seq<string>, maxLevel: int): (r: Result<seq<string>>)
    ensures r.Failure? <==> exists c :: c in comments && CommentIsMaxLevel(c, maxLevel).Failure?
    ensures r.Success? ==>
              |r.value| <= |comments|
              && forall c :: c in r.value <==> c in comments && CommentIsMaxLevel(c, maxLevel) == Success(true)
    decreases |comments|
  {
    if |comments| == 0 then Success([])
    else
      match CommentIsMaxLevel(comments[0], maxLevel)
      case Failure(e) => Failure(e)
      case Success(keep) =>
        match WithinLevel(comments[1..], maxLevel)
        case Failure(e) => Failure(e)
        case Success(rest) => Success((if keep then [comments[0]] else []) + rest)
  }

  /** Filtering keeps the page order: the filter of a concatenation is the concatenation of the filters. */
  lemma {:induction false} WithinLevelConcat(a: seq<string>, b: seq<string>, maxLevel: int)
    requires WithinLevel(a + b, maxLevel).Success?
    ensures WithinLevel(a, maxLevel).Success? && WithinLevel(b, maxLevel).Success?
    ensures WithinLevel(a + b, maxLevel).value == WithinLevel(a, maxLevel).value + WithinLevel(b, maxLevel).value
    decreases |a|
  {
    if |a| == 0 {
      assert a + b == b;
    } else {
      assert (a + b)[0] == a[0];
      assert (a + b)[1..] == a[1..] + b;
      WithinLevelConcat(a[1..], b, maxLevel);
      WithinLevelCons(a + b, maxLevel);
      WithinLevelCons(a, maxLevel);
      var keep := CommentIsMaxLevel(a[0], maxLevel);
      var head := if keep.value then [a[0]] else [];
      var x, y := WithinLevel(a[1..], maxLevel).value, WithinLevel(b, maxLevel).value;
      assert head + (x + y) == head + x + y;
    }
  }

  /** The filter of a non-empty list: its first comment if kept, then the filter of the rest. */
  lemma WithinLevelCons(s: seq<string>, maxLevel: int)
    requires |s| > 0
    ensures WithinLevel(s, maxLevel).Success? <==>
              CommentIsMaxLevel(s[0], maxLevel).Success? && WithinLevel(s[1..], maxLevel).Success?
    ensures WithinLevel(s, maxLevel).Success? ==>
              WithinLevel(s, maxLevel).value ==
                (if CommentIsMaxLevel(s[0], maxLevel).value then [s[0]] else []) + WithinLevel(s[1..], maxLevel).value
  {
  }

  // ---------------------------------------------------------------- ids

  /** Python's `s.replace(m, "")`: every non-overlapping occurrence, from the left, removed. */
  function RemoveAll(s: string, m: string): (r: string)
    requires |m| > 0
    ensures |r| <= |s|
    decreases |s|
  {
    if |s| < |m| then s
    else if s[..|m|] == m then RemoveAll(s[|m|..], m)
    else [s[0]] + RemoveAll(s[1..], m)
  }

  const CommentIdPrefix: string := "wpd-comm-"

  /**
   * `_get_comment_ids`: an element id `wpd-comm-<cid>_<parent_cid>` gives `(parent_cid, cid)`.
   * Once the prefix is removed, `cid` is the text before the first underscore and `parent_cid`
   * the text from there to the next underscore or the end; without an underscore the index
   * raises.
   */
  function CommentIds(id: string): (r: Result<(string, string)>)
    ensures var body := RemoveAll(id, CommentIdPrefix);
            (r.Failure? <==> '_' !in body)
            && (r.Success? ==>
                  var parent, cid := r.value.0, r.value.1;
                  '_' !in cid && '_' !in parent && cid + "_" + parent <= body
                  && (|body| == |cid| + 1 + |parent| || body[|cid| + 1 + |parent|] == '_'))
  {
    var body := RemoveAll(id, CommentIdPrefix);
    var parts := Split(body, '_');
    SplitFirstTwo(body);
    if |parts| < 2 then Failure("list index out of range") else Success((parts[1], parts[0]))
  }

  /** The first two underscore-separated parts of `body`, as `_get_comment_ids` indexes them. */
  lemma SplitFirstTwo(body: string)
    ensures var parts := Split(body, '_');
            (|parts| < 2 <==> '_' !in body)
            && (|parts| >= 2 ==>
                  '_' !in parts[0] && '_' !in parts[1] && parts[0] + "_" + parts[1] <= body
                  && (|body| == |parts[0]| + 1 + |parts[1]| || body[|parts[0]| + 1 + |parts[1]|] == '_'))
  {
    var parts := Split(body, '_');
    SplitHead(body, '_');
    if |parts| >= 2 {
      var rest := body[|parts[0]| + 1..];
      var tail := Split(rest, '_');
      SplitHead(rest, '_');
      assert parts[1] == tail[0];
      JoinPrefix(body, parts[0], parts[1]);
    }
  }

  /** `a`, an underscore and a prefix `b` of what follows it make up a prefix of `body`. */
  lemma JoinPrefix(body: string, a: string, b: string)
    requires a <= body && |a| < |body| && body[|a|] == '_' && b <= body[|a| + 1..]
    ensures a + "_" + b <= body
    ensures |a| + 1 + |b| < |body| ==> body[|a| + 1 + |b|] == body[|a| + 1..][|b|]
  {
    assert body == a + "_" + body[|a| + 1..];
  }

  /** A string of digits holds no part of the prefix, so removing it changes nothing. */
  lemma {:induction false} RemoveAllDigits(s: string)
    requires forall k :: 0 <= k < |s| ==> IsDigit(s[k]) || s[k] == '_'
    ensures RemoveAll(s, CommentIdPrefix) == s
    decreases |s|
  {
    if |s| >= |CommentIdPrefix| {
      assert s[..|CommentIdPrefix|][0] != 'w';
      RemoveAllDigits(s[1..]);
      assert [s[0]] + s[1..] == s;
    }
  }

  /** Numeric comment ids are recovered from the element id the page gives them, parent first. */
  lemma CommentIdsRoundTrip(cid: string, parent: string)
    requires forall k :: 0 <= k < |cid| ==> IsDigit(cid[k])
    requires forall k :: 0 <= k < |parent| ==> IsDigit(parent[k])
    ensures CommentIds(CommentIdPrefix + cid + "_" + parent) == Success((parent, cid))
  {
    var body := cid + "_" + parent;
    var id := CommentIdPrefix + body;
    assert id == CommentIdPrefix + cid + "_" + parent;
    assert id[..|CommentIdPrefix|] == CommentIdPrefix && id[|CommentIdPrefix|..] == body;
    RemoveAllDigits(body);
    assert body == cid + ['_'] + parent;
    SplitAtSep(cid, '_', parent);
    SplitNoSep(cid, '_');
    SplitNoSep(parent, '_');
  }

  // ---------------------------------------------------------------- writing a comment

  /**
   * What `write_comment` fills in: the thread suffix `<cid>_<parent_cid>` its form elements
   * carry, the editor and submit button of that thread, the name and email inputs it types
   * into (only when the user is not logged in), and the author and email it records.
   */
  datatype CommentForm = CommentForm(
    thread: string, editor: string, submit: string, nameInput: Option<string>, emailInput: Option<string>,
    author: string, email: Option<string>)

  /** The thread suffix `<cid>_<parent_cid>`, with wpDiscuz's fake ids `0_0` when either id is missing. */
  function Thread(parentCid: Option<string>, cid: Option<string>): (t: string)
    ensures parentCid.None? || cid.None? ==> t == "0_0"
    ensures parentCid.Some? && cid.Some? ==> t == cid.value + "_" + parentCid.value
  {
    if parentCid.None? || cid.None? then "0_0" else cid.value + "_" + parentCid.value
  }

  /**
   * Whether one of the elements `write_comment` looks up by id is absent from the page (`present`
   * says which ids are), making `find_element_by_id` raise: the thread's editor and submit
   * button, and the name and email inputs when the user is not logged in.
   */
  predicate FormMissing(thread: string, loggedIn: bool, present: string -> bool)
  {
    || !present("wpd-editor-" + thread)
    || (!loggedIn && (!present("wc_name-" + thread) || !present("wc_email-" + thread)))
    || !present("wpd-field-submit-" + thread)
  }

  /** The form filled in once the lookups succeed. */
  function FilledForm(thread: string, loggedIn: bool, author: string, email: string, pageUser: string): (f: CommentForm)
    ensures f.thread == thread && f.editor == "wpd-editor-" + thread && f.submit == "wpd-field-submit-" + thread
    ensures (f.nameInput.None? <==> loggedIn) && (f.emailInput.None? <==> loggedIn)
    ensures !loggedIn ==> f.nameInput == Some("wc_name-" + thread) && f.emailInput == Some("wc_email-" + thread)
    ensures loggedIn ==> f.author == pageUser && f.email.None?
    ensures !loggedIn ==> f.author == author && f.email == Some(email)
  {
    if loggedIn then CommentForm(thread, "wpd-editor-" + thread, "wpd-field-submit-" + thread, None, None, pageUser, None)
    else CommentForm(thread, "wpd-editor-" + thread, "wpd-field-submit-" + thread,
                     Some("wc_name-" + thread), Some("wc_email-" + thread), author, Some(email))
  }

  /**
   * `write_comment` as written: its guard `check_post_page(driver) and CheckCommentWriter(...)`
   * builds the writer check without applying it to the driver, and the object is always true.
   * So on a post page the form is looked up whether or not it is shown, and a missing element
   * raises `NoSuchElementException`; off a post page only an error is logged (`Success(None)`).
   */
  function WriteCommentAsWritten(parentCid: Option<string>, cid: Option<string>, onPostPage: bool,
                                 present: string -> bool, loggedIn: bool, author: string, email: string,
                                 pageUser: string): (r: Result<Option<CommentForm>>)
    ensures r == Success(None) <==> !onPostPage
    ensures r.Failure? <==> onPostPage && FormMissing(Thread(parentCid, cid), loggedIn, present)
    ensures r.Success? && r.value.Some? ==>
              r.value.value == FilledForm(Thread(parentCid, cid), loggedIn, author, email, pageUser)
  {
    var thread := Thread(parentCid, cid);
    if !onPostPage then Success(None)
    else if FormMissing(thread, loggedIn, present) then Failure("NoSuchElementException")
    else Success(Some(FilledForm(thread, loggedIn, author, email, pageUser)))
  }

  /**
   * `write_comment` with the writer check applied, as evidently intended: a new comment (either
   * id missing) goes to the editor wpDiscuz marks with the fake ids `0_0`, a reply to the editor
   * of the comment whose ids were read. Off a post page, or when the thread's editor or submit
   * button is not shown (`shown`, what `CheckCommentWriter` observes), only an error is logged.
   * A logged-in user comments under the user name the page shows and without an email;
   * otherwise the configured author and email are typed into the thread's name and email
   * inputs, and a missing input raises.
   */
  function WriteComment(parentCid: Option<string>, cid: Option<string>, onPostPage: bool, shown: string -> bool,
                        present: string -> bool, loggedIn: bool, author: string, email: string,
                        pageUser: string): (r: Result<Option<CommentForm>>)
    ensures var t := Thread(parentCid, cid);
            r == Success(None) <==> !onPostPage || !shown("wpd-editor-" + t) || !shown("wpd-field-submit-" + t)
    ensures var t := Thread(parentCid, cid);
            r.Failure? <==> onPostPage && shown("wpd-editor-" + t) && shown("wpd-field-submit-" + t)
                            && FormMissing(t, loggedIn, present)
    ensures r.Success? && r.value.Some? && (parentCid.None? || cid.None?) ==> r.value.value.thread == "0_0"
    ensures r.Success? && r.value.Some? && parentCid.Some? && cid.Some? ==>
              r.value.value.thread == cid.value + "_" + parentCid.value
    ensures r.Success? && r.value.Some? ==>
              var f := r.value.value;
              && f.editor == "wpd-editor-" + f.thread && f.submit == "wpd-field-submit-" + f.thread
              && (f.nameInput.None? <==> loggedIn) && (f.emailInput.None? <==> loggedIn)
              && (!loggedIn ==> f.nameInput == Some("wc_name-" + f.thread) && f.emailInput == Some("wc_email-" + f.thread))
              && (loggedIn ==> f.author == pageUser && f.email.None?)
              && (!loggedIn ==> f.author == author && f.email == Some(email))
  {
    var thread := Thread(parentCid, cid);
    if !onPostPage || !shown("wpd-editor-" + thread) || !shown("wpd-field-submit-" + thread) then Success(None)
    else WriteCommentAsWritten(parentCid, cid, onPostPage, present, loggedIn, author, email, pageUser)
  }

  /** Once the writer is shown, the code as written and the intended guard do the same. */
  lemma ShownWriterAgrees(parentCid: Option<string>, cid: Option<string>, onPostPage: bool, shown: string -> bool,
                          present: string -> bool, loggedIn: bool, author: string, email: string, pageUser: string)
    requires shown("wpd-editor-" + Thread(parentCid, cid)) && shown("wpd-field-submit-" + Thread(parentCid, cid))
    ensures WriteComment(parentCid, cid, onPostPage, shown, present, loggedIn, author, email, pageUser)
            == WriteCommentAsWritten(parentCid, cid, onPostPage, present, loggedIn, author, email, pageUser)
  {
  }

  /**
   * The discrepancy: a reply on a post page whose thread has no editor. The code as written
   * raises at the editor lookup; with the check applied only an error is logged.
   */
  lemma UncalledWriterCheck(loggedIn: bool, author: string, email: string, pageUser: string)
    ensures WriteCommentAsWritten(Some("7"), Some("12"), true, id => false, loggedIn, author, email, pageUser).Failure?
    ensures WriteComment(Some("7"), Some("12"), true, id => false, id => false, loggedIn, author, email, pageUser)
            == Success(None)
  {
  }

  /** A page on which every element is present and shown. */
  const EveryElement: string -> bool := id => true

  /**
   * A reply is written in the form of the comment it answers: the comment's element
   * `wpd-comm-<cid>_<parent>` is read as the ids `(parent, cid)`, and the form written with them
   * has that element's id without its prefix as its thread.
   */
  lemma ReplyAnswersComment(cid: string, parent: string, loggedIn: bool, author: string, email: string, pageUser: string)
    requires forall k :: 0 <= k < |cid| ==> IsDigit(cid[k])
    requires forall k :: 0 <= k < |parent| ==> IsDigit(parent[k])
    ensures CommentIds(CommentIdPrefix + cid + "_" + parent) == Success((parent, cid))
    ensures var form := WriteComment(Some(parent), Some(cid), true, EveryElement, EveryElement,
                                     loggedIn, author, email, pageUser);
            form.Success? && form.value.Some? && form.value.value.thread == cid + "_" + parent
  {
    CommentIdsRoundTrip(cid, parent);
    ShownFormWritten(parent, cid, loggedIn, author, email, pageUser);
  }

  /** On a post page whose form is shown and present, a reply is written in its thread's form. */
  lemma ShownFormWritten(parent: string, cid: string, loggedIn: bool, author: string, email: string, pageUser: string)
    ensures WriteComment(Some(parent), Some(cid), true, EveryElement, EveryElement, loggedIn, author, email, pageUser)
            == Success(Some(FilledForm(cid + "_" + parent, loggedIn, author, email, pageUser)))
  {
  }

  /** A new comment is written in the `0_0` form, whose ids read back as ("0", "0"). */
  lemma NewCommentThread(parentCid: Option<string>, cid: Option<string>, loggedIn: bool, author: string, email: string, pageUser: string)
    requires parentCid.None? || cid.None?
    ensures var form := WriteComment(parentCid, cid, true, EveryElement, EveryElement, loggedIn, author, email, pageUser);
            form.Success? && form.value.Some? && form.value.value.editor == "wpd-editor-0_0"
            && CommentIds(CommentIdPrefix + form.value.value.thread) == Success(("0", "0"))
  {
    CommentIdsRoundTrip("0", "0");
    assert CommentIdPrefix + "0" + "_" + "0" == CommentIdPrefix + "0_0";
  }

  // ---------------------------------------------------------------- rating

  /**
   * `RatePost`: on a post page that is not rated yet, the rating `random.randint(min, max)` is
   * stored; the draw is the offset `draw` from `min`. `randint` raises when `min > max`. Off the
   * post page, or on a rated post, the rating stays.
   */
  function RatePost(rating: Option<int>, onPostPage: bool, rated: bool, minRating: int, maxRating: int, draw: nat)
    : (r: Result<Option<int>>)
    requires minRating <= maxRating ==> draw <= maxRating - minRating
    ensures !onPostPage || rated ==> r == Success(rating)
    ensures onPostPage && !rated ==> (r.Failure? <==> minRating > maxRating)
    ensures onPostPage && !rated && r.Success? ==>
              r.value.Some? && minRating <= r.value.value <= maxRating
  {
    if !onPostPage || rated then Success(rating)
    else if minRating > maxRating then Failure("empty range for randrange()")
    else Success(Some(minRating + draw))
  }
}
