/**
 * The user directory view: case-insensitive name search, pages of five
 * users, the "Showing a-b of n" label, clamped previous/next buttons,
 * avatar initials and avatar colours.
 */
module ApiData {
  import opened Wrappers
  import opened JsStrings
  import opened Seqs

  datatype User = User(id: int, name: string, email: string)

  /** `usersPerPage`. */
  const UsersPerPage: nat := 5

  /** The avatar palette of `getAvatarColor`. */
  const AvatarColors: seq<string> :=
    ["bg-blue-500", "bg-green-500", "bg-purple-500", "bg-pink-500", "bg-indigo-500", "bg-teal-500", "bg-amber-500"]

  function Min(a: int, b: int): int { if a <= b then a else b }

  /** The search predicate: the lowercased name includes the lowercased term. */
  predicate Matches(term: string, u: User) {
    Includes(ToLower(u.name), ToLower(term))
  }

  /** `filteredUsers`. */
  function FilteredUsers(users: seq<User>, term: string): seq<User> {
    Filter((u: User) => Matches(term, u), users)
  }

  /** `Math.ceil(n / usersPerPage)`, on integers. */
  function TotalPages(n: nat): (pages: nat)
    ensures pages * UsersPerPage >= n
    ensures pages == 0 || (pages - 1) * UsersPerPage < n
  {
    (n + UsersPerPage - 1) / UsersPerPage
  }

  /** `totalPages || 1`: the page count shown, never zero. */
  function ShownPageCount(n: nat): (shown: nat)
    ensures shown >= 1
  {
    if TotalPages(n) == 0 then 1 else TotalPages(n)
  }

  /** `paginatedUsers` for page `p`: `slice` clamps both ends to the length. */
  function Page(s: seq<User>, p: int): (r: seq<User>)
    requires p >= 1
    ensures |r| <= UsersPerPage
    ensures forall i :: 0 <= i < |r| ==> (p - 1) * UsersPerPage + i < |s| && r[i] == s[(p - 1) * UsersPerPage + i]
  {
    s[Min((p - 1) * UsersPerPage, |s|)..Min((p - 1) * UsersPerPage + UsersPerPage, |s|)]
  }

  /** Pages `p`, `p + 1`, ... up to the last page, concatenated. */
  function PagesFrom(s: seq<User>, p: int): seq<User>
    requires p >= 1
    decreases TotalPages(|s|) + 1 - p
  {
    if p > TotalPages(|s|) then [] else Page(s, p) + PagesFrom(s, p + 1)
  }

  /** The pages from `p` onwards cover exactly the users from index `(p - 1) * 5` onwards. */
  lemma {:induction false} PagesFromIsSuffix(s: seq<User>, p: int)
    requires p >= 1
    ensures PagesFrom(s, p) == s[Min((p - 1) * UsersPerPage, |s|)..]
    decreases TotalPages(|s|) + 1 - p
  {
    if p <= TotalPages(|s|) {
      PagesFromIsSuffix(s, p + 1);
      var a, b := Min((p - 1) * UsersPerPage, |s|), Min(p * UsersPerPage, |s|);
      assert s[a..b] + s[b..] == s[a..];
    }
  }

  /** Pages 1 to `totalPages`, concatenated, are exactly the filtered users. */
  lemma PagesCoverAll(s: seq<User>)
    ensures PagesFrom(s, 1) == s
  {
    PagesFromIsSuffix(s, 1);
  }

  /** The bounds of the "Showing lo-hi of n" label for page `p`. */
  function RangeLabel(n: nat, p: int): (int, int) {
    (Min(n, (p - 1) * UsersPerPage + 1), Min(n, p * UsersPerPage))
  }

  /** On every existing page the label counts exactly the users shown, starting after the earlier pages. */
  lemma RangeLabelMatchesPage(s: seq<User>, p: int)
    requires 1 <= p <= TotalPages(|s|)
    ensures 1 <= RangeLabel(|s|, p).0 <= RangeLabel(|s|, p).1 <= |s|
    ensures RangeLabel(|s|, p).1 - RangeLabel(|s|, p).0 + 1 == |Page(s, p)|
    ensures RangeLabel(|s|, p).0 == (p - 1) * UsersPerPage + 1
  {
  }

  lemma MultipleHasNoRemainder(k: int, b: int)
    requires b > 0
    ensures (k * b) % b == 0
  {
    var d, m := (k * b) / b, (k * b) % b;
    assert k * b == d * b + m && 0 <= m < b;
    var e := k - d;
    assert m == e * b;
    MultipleBounds(e, b);
  }

  lemma MultipleBounds(e: int, b: int)
    requires b > 0
    ensures e >= 1 ==> e * b >= b
    ensures e <= -1 ==> e * b <= -b
  {
    if e >= 1 {
      assert e * b == (e - 1) * b + b;
    } else if e <= -1 {
      assert e * b == (e + 1) * b - b;
    }
  }

  /** The truncating remainder of JavaScript's `%` (its sign follows the dividend). */
  function JsRemainder(a: int, b: int): (r: int)
    requires b > 0
    ensures -b < r < b
    ensures a >= 0 ==> r == a % b
    ensures a < 0 ==> r <= 0 && (a - r) % b == 0
  {
    if a >= 0 then a % b
    else
      var q := (-a) / b;
      assert a + (-a) % b == (-q) * b;
      MultipleHasNoRemainder(-q, b);
      -((-a) % b)
  }

  /** `getAvatarColor(id)`: `colors[id % 7]`, which is `undefined` for a negative index. */
  function AvatarColor(id: int): Option<string> {
    var k := JsRemainder(id, |AvatarColors|);
    if 0 <= k then Some(AvatarColors[k]) else None
  }

  /** A non-negative id always picks a palette colour, and ids seven apart share it. */
  lemma AvatarColorDefined(id: int)
    requires id >= 0
    ensures AvatarColor(id) == Some(AvatarColors[id % 7])
    ensures AvatarColor(id + 7) == AvatarColor(id)
  {
  }

  /** A negative id that is not a multiple of seven indexes below zero and yields no colour. */
  lemma AvatarColorNegative(id: int)
    requires id < 0 && (-id) % 7 != 0
    ensures AvatarColor(id) == None
  {
  }

  /** The first character of each part, with empty parts (`part[0]` undefined) contributing nothing. */
  function FirstChars(parts: seq<string>): (r: string)
    ensures |r| <= |parts|
  {
    if parts == [] then ""
    else (if parts[0] == "" then "" else [parts[0][0]]) + FirstChars(parts[1..])
  }

  /** Empty parts contribute nothing: the first characters are those of the non-empty parts. */
  lemma {:induction false} FirstCharsSkipsEmpty(parts: seq<string>)
    ensures FirstChars(parts) == FirstChars(Filter((p: string) => p != "", parts))
  {
    var nonEmpty := (p: string) => p != "";
    if parts != [] {
      FirstCharsSkipsEmpty(parts[1..]);
      var rest := Filter(nonEmpty, parts[1..]);
      if parts[0] != "" {
        assert Filter(nonEmpty, parts) == [parts[0]] + rest;
        assert ([parts[0]] + rest)[1..] == rest;
      } else {
        assert Filter(nonEmpty, parts) == rest;
      }
    }
  }

  /** `getInitials(name)`. */
  function Initials(name: string): (r: string)
    ensures |r| <= |Split(name, ' ')|
    ensures forall i :: 0 <= i < |r| ==> !('a' <= r[i] <= 'z')
  {
    ToUpper(FirstChars(Split(name, ' ')))
  }

  lemma {:induction false} FirstCharsOfWords(words: seq<string>)
    requires forall i :: 0 <= i < |words| ==> words[i] != ""
    ensures FirstChars(words) == seq(|words|, i requires 0 <= i < |words| => words[i][0])
  {
    if words != [] {
      FirstCharsOfWords(words[1..]);
    }
  }

  /** For a name made of non-empty words separated by single spaces, the initials are the words' first letters, uppercased. */
  lemma InitialsOfWords(words: seq<string>)
    requires |words| >= 1
    requires forall i :: 0 <= i < |words| ==> words[i] != "" && ' ' !in words[i]
    ensures |Initials(Join(words, ' '))| == |words|
    ensures forall i :: 0 <= i < |words| ==> Initials(Join(words, ' '))[i] == UpperChar(words[i][0])
  {
    SplitJoin(words, ' ');
    FirstCharsOfWords(words);
  }

  /** The directory component's state. */
  class Directory {
    /** The fetched users. */
    var users: seq<User>
    var searchTerm: string
    var currentPage: int

    function Filtered(): seq<User>
      reads this
    {
      FilteredUsers(users, searchTerm)
    }

    /** The current page always exists (page 1 when nothing matches). */
    ghost predicate Valid()
      reads this
    {
      1 <= currentPage <= ShownPageCount(|Filtered()|)
    }

    /** The users on screen. */
    function Paginated(): (r: seq<User>)
      reads this
      requires Valid()
      ensures |r| <= UsersPerPage
      ensures forall u :: u in r ==> u in users && Matches(searchTerm, u)
    {
      Page(Filtered(), currentPage)
    }

    /** The view once `fetchUsers` has resolved with `fetched`. */
    constructor (fetched: seq<User>)
      ensures Valid()
      ensures users == fetched && searchTerm == "" && currentPage == 1
    {
      users := fetched;
      searchTerm := "";
      currentPage := 1;
    }

    /** Typing in the search box sets the term and goes back to page 1. */
    method Search(term: string)
      modifies this
      ensures Valid()
      ensures searchTerm == term && currentPage == 1 && users == old(users)
    {
      searchTerm := term;
      currentPage := 1;
    }

    /** The previous-page button: disabled on page 1, otherwise `max(page - 1, 1)`. */
    method PrevPage()
      requires Valid()
      modifies this
      ensures Valid()
      ensures currentPage == if old(currentPage) > 1 then old(currentPage) - 1 else 1
      ensures users == old(users) && searchTerm == old(searchTerm)
    {
      if currentPage != 1 {
        currentPage := if currentPage - 1 >= 1 then currentPage - 1 else 1;
      }
    }

    /** The next-page button: disabled on the last page or when there are no pages, otherwise `min(page + 1, totalPages)`. */
    method NextPage()
      requires Valid()
      modifies this
      ensures Valid()
      ensures currentPage == if old(currentPage) < TotalPages(|Filtered()|) then old(currentPage) + 1 else old(currentPage)
      ensures users == old(users) && searchTerm == old(searchTerm)
    {
      var total := TotalPages(|Filtered()|);
      if !(currentPage == total || total == 0) {
        currentPage := Min(currentPage + 1, total);
      }
    }
  }

  /** With an empty term the search keeps every user. */
  lemma EmptySearchKeepsAll(users: seq<User>)
    ensures FilteredUsers(users, "") == users
  {
    forall u | u in users ensures Matches("", u) {
      IncludesEmpty(ToLower(u.name));
    }
    FilterKeepsAll((u: User) => Matches("", u), users);
  }

  /** The search keeps exactly the matching users, in their original order. */
  lemma SearchSelects(users: seq<User>, term: string)
    ensures forall u :: u in FilteredUsers(users, term) <==> u in users && Matches(term, u)
    ensures IsSubseq(FilteredUsers(users, term), users)
    ensures forall u :: multiset(FilteredUsers(users, term))[u] == if Matches(term, u) then multiset(users)[u] else 0
  {
    FilterIsSubseq((u: User) => Matches(term, u), users);
    FilterCounts((u: User) => Matches(term, u), users);
  }
}
