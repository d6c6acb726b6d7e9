/**
 * `ProjectRepository.getProjectDetail`: the project URL is matched against
 * `/(orgs|users)/<name>/projects/<digits>`, the owner type picks the GraphQL
 * field to query, and the answer becomes a `ProjectDetail`. The GraphQL
 * request itself is a function from (field, owner, number) to the project
 * data it returns, or nothing.
 */
module ProjectRepository {
  import opened Wrappers
  import opened Text
  import opened ProjectDetails

  /** The named groups of a match. */
  datatype UrlMatch = UrlMatch(ownerType: string, ownerName: string, projectNumber: string)

  /** The text a match covers. */
  function Segment(m: UrlMatch): string {
    "/" + m.ownerType + "/" + m.ownerName + "/projects/" + m.projectNumber
  }

  /** The groups the pattern can capture: an owner type of the alternation,
      a non-empty name without `/`, a non-empty digit run. */
  predicate WellFormed(m: UrlMatch) {
    && (m.ownerType == "orgs" || m.ownerType == "users")
    && |m.ownerName| > 0 && '/' !in m.ownerName
    && |m.projectNumber| > 0 && AllDigits(m.projectNumber)
  }

  /** The length of the run of characters other than `/` from `i`. */
  function NameRun(s: string, i: nat): (n: nat)
    requires i <= |s|
    ensures i + n <= |s|
    ensures forall k :: i <= k < i + n ==> s[k] != '/'
    ensures i + n == |s| || s[i + n] == '/'
    decreases |s| - i
  {
    if i == |s| || s[i] == '/' then 0 else 1 + NameRun(s, i + 1)
  }

  /** The length of the run of digits from `i`. */
  function DigitRun(s: string, i: nat): (n: nat)
    requires i <= |s|
    ensures i + n <= |s|
    ensures forall k :: i <= k < i + n ==> IsDigit(s[k])
    ensures i + n == |s| || !IsDigit(s[i + n])
    decreases |s| - i
  {
    if i == |s| || !IsDigit(s[i]) then 0 else 1 + DigitRun(s, i + 1)
  }

  /** The owner type spelled at `i`, or `""` when neither alternative is. */
  function OwnerTypeAt(url: string, i: nat): string {
    if OccursAt(url, "/orgs/", i) then "orgs" else if OccursAt(url, "/users/", i) then "users" else ""
  }

  /** Where the owner name would start after the owner type at `i`. */
  function NameStart(url: string, i: nat): nat {
    i + |OwnerTypeAt(url, i)| + 2
  }

  /** The tests the pattern makes at `i`: an owner type, a non-empty name,
      `/projects/`, a non-empty digit run. */
  predicate MatchesAt(url: string, i: nat)
    requires i <= |url|
  {
    var j := NameStart(url, i);
    && OwnerTypeAt(url, i) != ""
    && j <= |url| && NameRun(url, j) > 0
    && OccursAt(url, "/projects/", j + NameRun(url, j))
    && DigitRun(url, j + NameRun(url, j) + 10) > 0
  }

  /** The groups captured at `i`. `[^/]+` is greedy and must be followed by
      `/`, so the name is the whole run up to the next `/`; `\d+` ends the
      pattern, so the number is the whole digit run. */
  function GroupsAt(url: string, i: nat): UrlMatch
    requires i <= |url| && MatchesAt(url, i)
  {
    var j := NameStart(url, i);
    var n := NameRun(url, j);
    UrlMatch(OwnerTypeAt(url, i), url[j..j + n], url[j + n + 10..j + n + 10 + DigitRun(url, j + n + 10)])
  }

  /** The match starting at `i`, if any. */
  function MatchAt(url: string, i: nat): Option<UrlMatch>
    requires i <= |url|
  {
    if MatchesAt(url, i) then Some(GroupsAt(url, i)) else None
  }

  /** `m` is a match of the whole pattern at `i`: a well-formed segment in
      place, with no further digit after it. */
  predicate MatchedAt(url: string, i: nat, m: UrlMatch) {
    && WellFormed(m) && OccursAt(url, Segment(m), i)
    && (i + |Segment(m)| == |url| || !IsDigit(url[i + |Segment(m)|]))
  }

  /** What `MatchAt` finds once its four tests have passed. */
  lemma MatchFound(url: string, i: nat, j: nat, kind: string, n: nat, d: nat)
    requires kind == "orgs" || kind == "users"
    requires j == i + |kind| + 2 && OccursAt(url, "/" + kind + "/", i)
    requires n > 0 && d > 0 && j + n + 10 + d <= |url|
    requires forall k :: j <= k < j + n ==> url[k] != '/'
    requires OccursAt(url, "/projects/", j + n)
    requires forall k :: j + n + 10 <= k < j + n + 10 + d ==> IsDigit(url[k])
    requires j + n + 10 + d == |url| || !IsDigit(url[j + n + 10 + d])
    ensures MatchedAt(url, i, UrlMatch(kind, url[j..j + n], url[j + n + 10..j + n + 10 + d]))
  {
    var m := UrlMatch(kind, url[j..j + n], url[j + n + 10..j + n + 10 + d]);
    SegmentAt(url, i, m);
    assert |Segment(m)| == |kind| + 2 + n + 10 + d;
  }

  /** The four pieces of a segment in place make the segment. */
  lemma SegmentAt(url: string, i: nat, m: UrlMatch)
    requires OccursAt(url, "/" + m.ownerType + "/", i)
    requires OccursAt(url, m.ownerName, i + |m.ownerType| + 2)
    requires OccursAt(url, "/projects/", i + |m.ownerType| + 2 + |m.ownerName|)
    requires OccursAt(url, m.projectNumber, i + |m.ownerType| + 2 + |m.ownerName| + 10)
    ensures OccursAt(url, Segment(m), i)
  {
    var head := "/" + m.ownerType + "/";
    OccursConcat(url, head, m.ownerName, i);
    OccursConcat(url, head + m.ownerName, "/projects/", i);
    OccursConcat(url, head + m.ownerName + "/projects/", m.projectNumber, i);
  }

  /** The leftmost position at or after `from` where the pattern matches. */
  function FirstMatch(url: string, from: nat): (r: Option<nat>)
    requires from <= |url|
    ensures r.Some? ==> from <= r.value <= |url| && MatchAt(url, r.value).Some?
    ensures forall k :: from <= k <= |url| && (r.None? || k < r.value) ==> MatchAt(url, k).None?
    decreases |url| - from
  {
    if MatchAt(url, from).Some? then Some(from)
    else if from == |url| then None
    else FirstMatch(url, from + 1)
  }

  /** `projectUrl.match(...)`: the groups of the leftmost match. */
  function Match(url: string): (r: Option<UrlMatch>)
    ensures r.Some? ==> WellFormed(r.value) && Contains(url, Segment(r.value))
    ensures r.None? ==> forall k :: 0 <= k <= |url| ==> MatchAt(url, k).None?
  {
    match FirstMatch(url, 0)
    case None => None
    case Some(k) =>
      MatchAtSound(url, k);
      OccursThenContains(url, Segment(MatchAt(url, k).value), k);
      MatchAt(url, k)
  }

  lemma OccursThenContains(s: string, p: string, k: int)
    requires OccursAt(s, p, k)
    ensures Contains(s, p)
  {
    ContainsIff(s, p);
  }

  /** `ownerType === 'orgs' ? 'organization' : 'user'`. */
  function OwnerQueryField(ownerType: string): (r: string)
    ensures r == "organization" || r == "user"
  {
    if ownerType == "orgs" then "organization" else "user"
  }

  /** What the project query returns. */
  datatype ProjectData = ProjectData(id: string, title: string, url: string)

  /** The GraphQL request for `(field, owner, number)`: the `projectV2`
      object, `None` when it is null, or the message of what the request
      threw (a GraphQL error, or the `TypeError` of a null owner object). */
  type ProjectQuery = (string, string, int) -> Outcome<Option<ProjectData>>

  function InvalidUrl(url: string): string { "Invalid project URL: " + url }
  function NotFound(url: string): string { "Project not found: " + url }

  /** The reply of the query `getProjectDetail` sends for the match `m`. */
  function QueryFor(m: UrlMatch, query: ProjectQuery): Outcome<Option<ProjectData>>
    requires WellFormed(m)
  {
    query(OwnerQueryField(m.ownerType), m.ownerName, DigitsValue(m.projectNumber))
  }

  /** `getProjectDetail(projectUrl)`: an unmatched URL throws "Invalid
      project URL", an error of the query passes through, a missing project
      throws "Project not found", and a found one gives its detail. */
  function GetProjectDetail(url: string, query: ProjectQuery): (r: Outcome<ProjectDetail>)
    ensures Match(url).None? ==> r == Thrown(InvalidUrl(url))
    ensures Match(url).Some? ==>
              var reply := QueryFor(Match(url).value, query);
              && (reply.Thrown? ==> r == Thrown(reply.message))
              && (reply == Done(None) ==> r == Thrown(NotFound(url)))
              && (r.Done? <==> reply.Done? && reply.value.Some?)
    ensures r.Done? ==> Match(url).Some?
    ensures r.Done? ==> && r.value.owner == Match(url).value.ownerName
                        && r.value.projectType == OwnerQueryField(Match(url).value.ownerType)
                        && r.value.number == DigitsValue(Match(url).value.projectNumber)
    ensures r.Done? ==> && |r.value.owner| > 0 && '/' !in r.value.owner && r.value.number >= 0
  {
    match Match(url)
    case None => Thrown(InvalidUrl(url))
    case Some(m) =>
      var field := OwnerQueryField(m.ownerType);
      var number := DigitsValue(m.projectNumber);
      match query(field, m.ownerName, number)
      case Thrown(message) => Thrown(message)
      case Done(None) => Thrown(NotFound(url))
      case Done(Some(data)) =>
        Done(MakeProjectDetail(DetailData(Some(data.id), Some(field), Some(m.ownerName), Some(data.url), Some(number), Some(data.title))))
  }

  /** A query that answers, with or without a project, decides between the
      two: "Project not found" exactly when there is no project. */
  lemma MissingProjectNotFound(url: string, query: ProjectQuery)
    requires Match(url).Some? && QueryFor(Match(url).value, query).Done?
    ensures GetProjectDetail(url, query) == Thrown(NotFound(url)) <==> QueryFor(Match(url).value, query).value.None?
    ensures QueryFor(Match(url).value, query).value.None? <==> GetProjectDetail(url, query).Thrown?
  {
  }

  /** A found project keeps the query's id and URL. */
  lemma FoundProjectKeepsQueryData(url: string, query: ProjectQuery)
    requires Match(url).Some? && QueryFor(Match(url).value, query).Done?
    requires QueryFor(Match(url).value, query).value.Some?
    ensures GetProjectDetail(url, query).Done?
    ensures var data := QueryFor(Match(url).value, query).value.value;
            GetProjectDetail(url, query).value.id == data.id && GetProjectDetail(url, query).value.url == data.url
  {
  }

  /** `orgs` selects the `organization` field and `users` the `user` field. */
  lemma OwnerFieldMapping(m: UrlMatch)
    requires WellFormed(m)
    ensures m.ownerType == "orgs" ==> OwnerQueryField(m.ownerType) == "organization"
    ensures m.ownerType == "users" ==> OwnerQueryField(m.ownerType) == "user"
  {
  }

  lemma {:induction false} NameRunIs(s: string, i: nat, n: nat)
    requires i + n <= |s|
    requires forall k :: i <= k < i + n ==> s[k] != '/'
    requires i + n == |s| || s[i + n] == '/'
    ensures NameRun(s, i) == n
    decreases n
  {
    if n > 0 {
      NameRunIs(s, i + 1, n - 1);
    }
  }

  lemma {:induction false} DigitRunIs(s: string, i: nat, n: nat)
    requires i + n <= |s|
    requires forall k :: i <= k < i + n ==> IsDigit(s[k])
    requires i + n == |s| || !IsDigit(s[i + n])
    ensures DigitRun(s, i) == n
    decreases n
  {
    if n > 0 {
      DigitRunIs(s, i + 1, n - 1);
    }
  }

  /** The groups captured at `i` form a match of the whole pattern. */
  lemma GroupsSound(url: string, i: nat)
    requires i <= |url| && MatchesAt(url, i)
    ensures MatchedAt(url, i, GroupsAt(url, i))
  {
    var kind := OwnerTypeAt(url, i);
    var j := NameStart(url, i);
    var n := NameRun(url, j);
    assert OccursAt(url, "/" + kind + "/", i) by {
      if kind == "orgs" {
        assert "/" + kind + "/" == "/orgs/";
      } else {
        assert "/" + kind + "/" == "/users/";
      }
    }
    var d := DigitRun(url, j + n + 10);
    assert GroupsAt(url, i) == UrlMatch(kind, url[j..j + n], url[j + n + 10..j + n + 10 + d]);
    MatchFound(url, i, j, kind, n, d);
  }

  /** Whatever `MatchAt` returns is a match of the whole pattern there. */
  lemma MatchAtSound(url: string, i: nat)
    requires i <= |url| && MatchAt(url, i).Some?
    ensures MatchedAt(url, i, MatchAt(url, i).value)
  {
    GroupsSound(url, i);
  }

  /** The owner-type test recognises a type in place. */
  lemma KindAt(url: string, i: nat, kind: string)
    requires kind == "orgs" || kind == "users"
    requires OccursAt(url, "/" + kind + "/", i)
    ensures OwnerTypeAt(url, i) == kind
  {
    if kind == "users" {
      assert "/" + kind + "/" == "/users/";
      assert url[i..i + 7] == "/users/";
      assert url[i + 1] == url[i..i + 7][1] == 'u';
      assert !OccursAt(url, "/orgs/", i) by {
        assert "/orgs/"[1] == 'o';
      }
    } else {
      assert "/" + kind + "/" == "/orgs/";
    }
  }

  /** The pieces of a segment in place, one by one. */
  lemma SegmentPieces(url: string, i: nat, m: UrlMatch)
    requires OccursAt(url, Segment(m), i)
    ensures OccursAt(url, "/" + m.ownerType + "/", i)
    ensures OccursAt(url, m.ownerName, i + |m.ownerType| + 2)
    ensures OccursAt(url, "/projects/", i + |m.ownerType| + 2 + |m.ownerName|)
    ensures OccursAt(url, m.projectNumber, i + |m.ownerType| + 2 + |m.ownerName| + 10)
  {
    var head := "/" + m.ownerType + "/";
    OccursConcat(url, head + m.ownerName + "/projects/", m.projectNumber, i);
    OccursConcat(url, head + m.ownerName, "/projects/", i);
    OccursConcat(url, head, m.ownerName, i);
  }

  /** The name run at a name in place stops at its end. */
  lemma NameRunInPlace(url: string, m: UrlMatch, j: nat)
    requires '/' !in m.ownerName && OccursAt(url, m.ownerName, j)
    requires OccursAt(url, "/projects/", j + |m.ownerName|)
    ensures NameRun(url, j) == |m.ownerName|
  {
    OccursChars(url, m.ownerName, j);
    NameRunIs(url, j, |m.ownerName|);
  }

  /** The digit run at a number in place stops at its end. */
  lemma DigitRunInPlace(url: string, m: UrlMatch, k: nat)
    requires AllDigits(m.projectNumber) && OccursAt(url, m.projectNumber, k)
    requires k + |m.projectNumber| == |url| || !IsDigit(url[k + |m.projectNumber|])
    ensures DigitRun(url, k) == |m.projectNumber|
  {
    OccursChars(url, m.projectNumber, k);
    DigitRunIs(url, k, |m.projectNumber|);
  }

  /** The tests `MatchAt` makes, once the runs are known. */
  lemma TestsPass(url: string, i: nat, m: UrlMatch, j: nat, n: nat, d: nat)
    requires WellFormed(m) && j == i + |m.ownerType| + 2 && n == |m.ownerName| && d == |m.projectNumber|
    requires OccursAt(url, "/projects/", j + n) && OccursAt(url, m.projectNumber, j + n + 10)
    requires OwnerTypeAt(url, i) == m.ownerType && NameRun(url, j) == n && DigitRun(url, j + n + 10) == d
    ensures i <= |url| && MatchesAt(url, i) && NameStart(url, i) == j
  {
  }

  /** The tests `MatchAt` makes all pass where the pieces of a well-formed
      segment lie in place, with runs as long as the groups. */
  lemma {:induction false} PiecesPassTests(url: string, i: nat, m: UrlMatch, j: nat, n: nat, d: nat)
    requires WellFormed(m) && j == i + |m.ownerType| + 2 && n == |m.ownerName| && d == |m.projectNumber|
    requires OccursAt(url, "/" + m.ownerType + "/", i)
    requires OccursAt(url, m.ownerName, j)
    requires OccursAt(url, "/projects/", j + n)
    requires OccursAt(url, m.projectNumber, j + n + 10)
    requires j + n + 10 + d == |url| || !IsDigit(url[j + n + 10 + d])
    ensures i <= |url| && MatchesAt(url, i) && OwnerTypeAt(url, i) == m.ownerType
    ensures NameStart(url, i) == j && NameRun(url, j) == n && DigitRun(url, j + n + 10) == d
  {
    assert OwnerTypeAt(url, i) == m.ownerType by { KindAt(url, i, m.ownerType); }
    assert NameRun(url, j) == n by { NameRunInPlace(url, m, j); }
    assert DigitRun(url, j + n + 10) == d by { DigitRunInPlace(url, m, j + n + 10); }
    TestsPass(url, i, m, j, n, d);
  }

  /** The groups `MatchAt` captures once its tests are known to pass. */
  lemma GroupsAre(url: string, i: nat, m: UrlMatch, j: nat, n: nat, d: nat)
    requires i <= |url| && MatchesAt(url, i) && OwnerTypeAt(url, i) == m.ownerType
    requires NameStart(url, i) == j && NameRun(url, j) == n && DigitRun(url, j + n + 10) == d
    requires OccursAt(url, m.ownerName, j) && n == |m.ownerName|
    requires OccursAt(url, m.projectNumber, j + n + 10) && d == |m.projectNumber|
    ensures MatchAt(url, i) == Some(m)
  {
  }

  /** The converse of `MatchAtSound`: a well-formed segment at `i` not
      followed by a further digit is exactly what matches there. */
  lemma {:induction false} MatchAtComplete(url: string, i: nat, m: UrlMatch)
    requires MatchedAt(url, i, m)
    ensures MatchAt(url, i) == Some(m)
  {
    var j := i + |m.ownerType| + 2;
    var n := |m.ownerName|;
    var d := |m.projectNumber|;
    SegmentPieces(url, i, m);
    assert |Segment(m)| == j - i + n + 10 + d;
    PiecesPassTests(url, i, m, j, n, d);
    GroupsAre(url, i, m, j, n, d);
  }

  /** A URL made of a well-formed segment followed by a non-digit (or
      nothing) parses to that segment's groups, and its number reads back
      as the digits when they have no leading zero. */
  lemma {:induction false} ParseSegmentUrl(m: UrlMatch, suffix: string)
    requires WellFormed(m)
    requires |suffix| == 0 || !IsDigit(suffix[0])
    ensures Match(Segment(m) + suffix) == Some(m)
    ensures Canonical(m.projectNumber) ==> NatToDecimal(DigitsValue(m.projectNumber)) == m.projectNumber
  {
    var url := Segment(m) + suffix;
    assert url[0..|Segment(m)|] == Segment(m);
    MatchAtComplete(url, 0, m);
    if Canonical(m.projectNumber) {
      DecimalOfValue(m.projectNumber);
    }
  }

  /** A URL with no match anywhere is rejected as invalid. */
  lemma {:induction false} UnmatchedUrlRejected(url: string, query: ProjectQuery)
    requires forall k :: 0 <= k <= |url| ==> MatchAt(url, k).None?
    ensures GetProjectDetail(url, query) == Thrown(InvalidUrl(url))
  {
    assert FirstMatch(url, 0).None?;
  }
}
