/** The customer dashboard: the avatar initials, the shortened id badge,
    and the sign-in redirect. The session is an input. */
module Dashboard {

  import opened Wrappers
  import Strings
  import Lists

  /** `session.user`; a missing name is `None`. */
  datatype SessionUser = SessionUser(id: string, name: Option<string>, email: string)

  predicate NonEmpty(piece: string) { piece != [] }

  /** `.map((n) => n[0]).join("")`: an empty piece gives `undefined`,
      which `join` writes as nothing. */
  function FirstChars(pieces: seq<string>): string
    decreases |pieces|
  {
    if pieces == [] then ""
    else (if pieces[0] == [] then "" else [pieces[0][0]]) + FirstChars(pieces[1..])
  }

  /** One character per non-empty piece, its first, in order. */
  lemma {:induction false} FirstCharsSpec(pieces: seq<string>)
    ensures var words := Lists.Filter(pieces, NonEmpty);
      && |FirstChars(pieces)| == |words|
      && forall i :: 0 <= i < |words| ==> FirstChars(pieces)[i] == words[i][0]
    decreases |pieces|
  {
    if pieces != [] {
      FirstCharsSpec(pieces[1..]);
      var words, rest := Lists.Filter(pieces, NonEmpty), Lists.Filter(pieces[1..], NonEmpty);
      if pieces[0] == [] {
        assert words == rest;
      } else {
        assert words == [pieces[0]] + rest;
      }
    }
  }

  /** The words of a name: its non-empty " "-separated pieces. */
  function Words(name: string): seq<string> {
    Lists.Filter(Strings.Split(name, ' '), NonEmpty)
  }

  /** `userInitials`; `None` where the page throws, reading the first
      character of an empty email. */
  function Initials(user: SessionUser): Option<string> {
    if user.name.Some? && user.name.value != "" then
      Some(Strings.ToUpper(FirstChars(Strings.Split(user.name.value, ' '))))
    else if user.email != "" then Some([Strings.UpperChar(user.email[0])])
    else None
  }

  /** For a non-empty name the initials are the uppercased first letters of
      its words, one per word and in order; otherwise the uppercased first
      character of the email; there are none only when both are empty. */
  lemma InitialsSpec(user: SessionUser)
    ensures Initials(user).None? <==> (user.name.None? || user.name.value == "") && user.email == ""
    ensures user.name.Some? && user.name.value != "" ==>
      var words := Words(user.name.value);
      && |Initials(user).value| == |words|
      && forall i :: 0 <= i < |words| ==> Initials(user).value[i] == Strings.UpperChar(words[i][0])
    ensures (user.name.None? || user.name.value == "") && user.email != "" ==>
      Initials(user) == Some([Strings.UpperChar(user.email[0])])
  {
    if user.name.Some? {
      FirstCharsSpec(Strings.Split(user.name.value, ' '));
    }
  }

  /** A first and a last name give two initials. */
  lemma {:induction false} TwoWordInitials(id: string, first: string, last: string, email: string)
    requires first != [] && last != [] && ' ' !in first && ' ' !in last
    ensures Initials(SessionUser(id, Some(first + " " + last), email))
            == Some([Strings.UpperChar(first[0]), Strings.UpperChar(last[0])])
  {
    Strings.SplitFirst(first, ' ', last);
    Strings.SplitWhole(last, ' ');
    assert first + " " + last == first + [' '] + last;
    var pieces := [first] + [last];
    assert Strings.Split(first + " " + last, ' ') == pieces;
    assert pieces[1..] == [last];
    assert FirstChars([last]) == [last[0]];
    assert FirstChars(pieces) == [first[0], last[0]];
    var u := Strings.ToUpper([first[0], last[0]]);
    assert |u| == 2 && u[0] == Strings.UpperChar(first[0]) && u[1] == Strings.UpperChar(last[0]);
    assert u == [Strings.UpperChar(first[0]), Strings.UpperChar(last[0])];
  }

  /** A name of spaces is truthy but has no words, so the avatar shows no
      initials at all and the email is not consulted. */
  lemma SpacesOnlyName(id: string, email: string)
    ensures Initials(SessionUser(id, Some(" "), email)) == Some("")
  {
    assert " " == [] + [' '] + [];
    Strings.SplitFirst([], ' ', []);
    Strings.SplitWhole([], ' ');
    assert Strings.Split(" ", ' ') == ["", ""];
    assert FirstChars(["", ""]) == "" + FirstChars([""]);
    assert FirstChars([""]) == "" + FirstChars([]);
  }

  /** `session.user.id.slice(0, 8)`: the first eight characters, or the
      whole id when it is shorter. */
  function ShortId(id: string): (r: string)
    ensures |r| == if |id| < 8 then |id| else 8
    ensures r == id[..|r|]
  {
    if |id| <= 8 then id else id[..8]
  }

  /** Shortening twice is shortening once, and an id of at most eight
      characters is shown whole. */
  lemma ShortIdProperties(id: string)
    ensures ShortId(ShortId(id)) == ShortId(id)
    ensures |id| <= 8 ==> ShortId(id) == id
  {
  }

  /** What the page renders. */
  datatype View = Loading | Nothing | Content(initials: Option<string>, idBadge: string)

  function DashboardView(isPending: bool, session: Option<SessionUser>): View {
    if isPending then Loading
    else if session.None? then Nothing
    else Content(Initials(session.value), "ID: " + ShortId(session.value.id) + "...")
  }

  /** The effect: `/sign-in` when the session check is over and there is none. */
  function DashboardRedirect(isPending: bool, session: Option<SessionUser>): Option<string> {
    if !isPending && session.None? then Some("/sign-in") else None
  }

  /** The page redirects exactly when it renders nothing, and a rendered
      page always belongs to a session. */
  lemma RedirectRule(isPending: bool, session: Option<SessionUser>)
    ensures DashboardRedirect(isPending, session).Some? <==> DashboardView(isPending, session) == Nothing
    ensures DashboardView(isPending, session).Content? ==> session.Some? && !isPending
  {
  }
}
