/**
 * The game page: the sorted scoreboard, the autocomplete suggestions, the
 * handlers of the round events and the guess submission.
 */
module GamePage {
  import opened Wrappers
  import opened JsStrings
  import opened Protocol

  datatype PlayerScore = PlayerScore(id: string, name: string, points: int)

  datatype Phase = Waiting | Playing | Revealing | Finished

  datatype GameStarted = GameStarted(lobbyId: string, round: int, timeLeft: int, scores: seq<PlayerScore>,
                                     musicId: string, musicTitle: string, musicsTitles: seq<string>)
  datatype GameTick = GameTick(lobbyId: string, round: int, timeLeft: int)
  datatype RoundReveal = RoundReveal(lobbyId: string, round: int, answer: string)
  datatype ScoresUpdated = ScoresUpdated(lobbyId: string, scores: seq<PlayerScore>)
  datatype GameFinished = GameFinished(lobbyId: string, scores: seq<PlayerScore>)

  // ---------------------------------------------------------------------------
  // Scoreboard: `[...scores].sort((a, b) => b.points - a.points)`, a stable sort
  // on descending points of a copy (the sequence value itself is never changed).

  /** Puts `x` before the first entry with at most its points. */
  function Insert(x: PlayerScore, s: seq<PlayerScore>): (r: seq<PlayerScore>)
    ensures |r| == |s| + 1
  {
    if s == [] || s[0].points <= x.points then [x] + s else [s[0]] + Insert(x, s[1..])
  }

  /** The stable sort, as insertion of each entry into the sorted rest. */
  function SortedScores(scores: seq<PlayerScore>): (r: seq<PlayerScore>)
    ensures |r| == |scores|
  {
    if scores == [] then [] else Insert(scores[0], SortedScores(scores[1..]))
  }

  ghost predicate NonIncreasing(s: seq<PlayerScore>) {
    forall i, j :: 0 <= i < j < |s| ==> s[i].points >= s[j].points
  }

  /** The entries with the given points, in order. */
  function WithPoints(s: seq<PlayerScore>, p: int): seq<PlayerScore>
  {
    if s == [] then [] else (if s[0].points == p then [s[0]] else []) + WithPoints(s[1..], p)
  }

  lemma {:induction false} InsertMultiset(x: PlayerScore, s: seq<PlayerScore>)
    ensures multiset(Insert(x, s)) == multiset(s) + multiset{x}
  {
    if s != [] && s[0].points > x.points {
      InsertMultiset(x, s[1..]);
      assert s == [s[0]] + s[1..];
    }
  }

  lemma {:induction false} InsertNonIncreasing(x: PlayerScore, s: seq<PlayerScore>)
    requires NonIncreasing(s)
    ensures NonIncreasing(Insert(x, s))
  {
    if s != [] && s[0].points > x.points {
      InsertNonIncreasing(x, s[1..]);
      var r := Insert(x, s[1..]);
      InsertMultiset(x, s[1..]);
      forall i | 0 <= i < |r| ensures r[i].points <= s[0].points {
        assert r[i] in multiset(r);
        if r[i] != x {
          assert r[i] in multiset(s[1..]);
          var k :| 0 <= k < |s[1..]| && s[1..][k] == r[i];
          assert s[k + 1] == r[i];
        }
      }
    }
  }

  lemma WithPointsCons(e: PlayerScore, s: seq<PlayerScore>, p: int)
    ensures WithPoints([e] + s, p) == (if e.points == p then [e] else []) + WithPoints(s, p)
  {
    assert ([e] + s)[1..] == s;
  }

  /** Inserting keeps the order among entries with equal points: `x` goes first among them. */
  lemma {:induction false} InsertWithPoints(x: PlayerScore, s: seq<PlayerScore>, p: int)
    requires NonIncreasing(s)
    ensures WithPoints(Insert(x, s), p) == (if x.points == p then [x] else []) + WithPoints(s, p)
  {
    var xs := if x.points == p then [x] else [];
    if s == [] || s[0].points <= x.points {
      WithPointsCons(x, s, p);
    } else {
      var s0 := if s[0].points == p then [s[0]] else [];
      assert NonIncreasing(s[1..]);
      InsertWithPoints(x, s[1..], p);
      WithPointsCons(s[0], Insert(x, s[1..]), p);
      WithPointsCons(s[0], s[1..], p);
      assert s == [s[0]] + s[1..];
      assert xs == [] || s0 == [];
      assert WithPoints(Insert(x, s), p) == s0 + (xs + WithPoints(s[1..], p));
    }
  }

  /**
   * The scoreboard holds the same entries as `scores`, in non-increasing
   * points, and entries with equal points keep their original order.
   */
  lemma {:induction false} SortedScoresCorrect(scores: seq<PlayerScore>)
    ensures NonIncreasing(SortedScores(scores))
    ensures multiset(SortedScores(scores)) == multiset(scores)
    ensures forall p :: WithPoints(SortedScores(scores), p) == WithPoints(scores, p)
  {
    if scores != [] {
      var rest := SortedScores(scores[1..]);
      SortedScoresCorrect(scores[1..]);
      InsertNonIncreasing(scores[0], rest);
      InsertMultiset(scores[0], rest);
      assert scores == [scores[0]] + scores[1..];
      forall p ensures WithPoints(SortedScores(scores), p) == WithPoints(scores, p) {
        InsertWithPoints(scores[0], rest, p);
      }
    }
  }

  // ---------------------------------------------------------------------------
  // Autocomplete suggestions.

  /** `guess.toLowerCase().split(" ").filter((p) => p.length > 0)` */
  function Parts(guess: string): seq<string> {
    NonEmpty(Split(Lower(guess), ' '))
  }

  /** The filter's test: every part occurs in the lowered title, and the title is not the guess. */
  predicate Matches(parts: seq<string>, guess: string, title: string) {
    (forall p <- parts :: Contains(Lower(title), p)) && Lower(title) != Lower(guess)
  }

  /** `titles.filter(...)` with the test `Matches`. */
  function FilterTitles(parts: seq<string>, guess: string, titles: seq<string>): (r: seq<string>)
    ensures |r| <= |titles|
  {
    if titles == [] then []
    else (if Matches(parts, guess, titles[0]) then [titles[0]] else []) + FilterTitles(parts, guess, titles[1..])
  }

  /** The `suggestions` memo. */
  function Suggestions(guess: string, musicsTitles: seq<string>): (r: seq<string>)
    ensures |r| <= |musicsTitles|
  {
    if Trim(guess) == [] then []
    else
      var parts := Parts(guess);
      if |parts| == 0 then [] else FilterTitles(parts, guess, musicsTitles)
  }

  /** A blank guess suggests nothing. */
  lemma BlankGuessSuggestsNothing(guess: string, musicsTitles: seq<string>)
    requires Trim(guess) == []
    ensures Suggestions(guess, musicsTitles) == []
  {
  }

  /** A guess that is not blank has at least one part, so the second emptiness test never fires. */
  lemma PartsOfNonBlankGuess(guess: string)
    requires Trim(guess) != []
    ensures Parts(guess) != []
  {
    TrimEmptyIff(guess);
    var i :| 0 <= i < |guess| && !IsSpace(guess[i]);
    SplitHasNonEmptyPart(Lower(guess), ' ', i);
    var p :| p in Split(Lower(guess), ' ') && p != [];
    assert p in Parts(guess);
  }

  /** Each part is a non-empty piece of the lowered guess without a space. */
  lemma PartsShape(guess: string)
    ensures forall p <- Parts(guess) :: p != [] && ' ' !in p && p in Split(Lower(guess), ' ')
    ensures Join(Split(Lower(guess), ' '), ' ') == Lower(guess)
  {
    JoinSplit(Lower(guess), ' ');
  }

  lemma {:induction false} FilterTitlesAppend(parts: seq<string>, guess: string, a: seq<string>, b: seq<string>)
    ensures FilterTitles(parts, guess, a + b) == FilterTitles(parts, guess, a) + FilterTitles(parts, guess, b)
  {
    if a != [] {
      FilterTitlesAppend(parts, guess, a[1..], b);
      assert (a + b)[0] == a[0];
      assert (a + b)[1..] == a[1..] + b;
      var head := if Matches(parts, guess, a[0]) then [a[0]] else [];
      assert FilterTitles(parts, guess, a + b) == head + (FilterTitles(parts, guess, a[1..]) + FilterTitles(parts, guess, b));
    } else {
      assert a + b == b;
    }
  }

  lemma {:induction false} FilterTitlesMember(parts: seq<string>, guess: string, titles: seq<string>, t: string)
    ensures t in FilterTitles(parts, guess, titles) <==> t in titles && Matches(parts, guess, t)
  {
    if titles != [] {
      FilterTitlesMember(parts, guess, titles[1..], t);
      assert titles == [titles[0]] + titles[1..];
    }
  }

  /** Suggestions keep the titles' relative order: filtering splits over concatenation. */
  lemma SuggestionsKeepOrder(guess: string, a: seq<string>, b: seq<string>)
    ensures Suggestions(guess, a + b) == Suggestions(guess, a) + Suggestions(guess, b)
  {
    if Trim(guess) != [] {
      FilterTitlesAppend(Parts(guess), guess, a, b);
    }
  }

  /**
   * A title is suggested exactly when it is one of the titles, the guess is
   * not blank, its lowercase form contains every part of the lowered guess,
   * and it is not the guess up to case.
   */
  lemma SuggestedIff(guess: string, musicsTitles: seq<string>, t: string)
    ensures t in Suggestions(guess, musicsTitles) <==>
      && t in musicsTitles
      && Trim(guess) != []
      && (forall p <- Parts(guess) :: Contains(Lower(t), p))
      && Lower(t) != Lower(guess)
  {
    if Trim(guess) != [] {
      PartsOfNonBlankGuess(guess);
      FilterTitlesMember(Parts(guess), guess, musicsTitles, t);
    }
  }

  // ---------------------------------------------------------------------------
  // The page state and its handlers.

  class GameView {
    var lobbyId: string
    const userId: Option<string>
    var phase: Phase
    var round: int
    var timeLeft: int
    var musicId: string
    var musicTitle: string
    var musicsTitles: seq<string>
    var guess: string
    var lastAnswer: Option<string>
    var scores: seq<PlayerScore>
    /** What the page has emitted on its socket. */
    var outbox: seq<ClientMessage>
    /** Where the page navigated to, if anywhere. */
    var location: Option<string>

    /** The handlers are registered only while both ids are set. */
    predicate Subscribed()
      reads this
    {
      lobbyId != "" && Truthy(userId)
    }

    constructor (userId: Option<string>)
      ensures this.userId == userId && lobbyId == ""
      ensures phase == Waiting && round == 1 && timeLeft == 30
      ensures musicId == "" && musicTitle == "" && musicsTitles == []
      ensures guess == "" && lastAnswer == None && scores == []
      ensures outbox == [] && location == None
    {
      this.userId := userId;
      lobbyId := "";
      phase, round, timeLeft := Waiting, 1, 30;
      musicId, musicTitle, musicsTitles := "", "", [];
      guess, lastAnswer, scores := "", None, [];
      outbox, location := [], None;
    }

    /** `getLobby`, once the fetch of `/api/get-lobbyid` has answered. */
    method OnLobbyIdFetched(r: Response)
      modifies this`lobbyId
      ensures lobbyId == FetchedLobbyId(old(lobbyId), r)
    {
      lobbyId := FetchedLobbyId(lobbyId, r);
    }

    /** `game-started`: a round begins; the guess and the last answer are cleared. */
    method OnGameStarted(p: GameStarted)
      requires Subscribed()
      modifies this`phase, this`round, this`timeLeft, this`scores, this`lastAnswer, this`guess,
               this`musicId, this`musicTitle, this`musicsTitles
      ensures phase == Playing && round == p.round && timeLeft == p.timeLeft && scores == p.scores
      ensures lastAnswer == None && guess == ""
      ensures musicId == p.musicId && musicTitle == p.musicTitle && musicsTitles == p.musicsTitles
      ensures Suggestions(guess, musicsTitles) == []
    {
      phase := Playing;
      round := p.round;
      timeLeft := p.timeLeft;
      scores := p.scores;
      lastAnswer := None;
      guess := "";
      musicId := p.musicId;
      musicTitle := p.musicTitle;
      musicsTitles := p.musicsTitles;
    }

    /** `game-tick`: only the countdown changes. */
    method OnTick(p: GameTick)
      requires Subscribed()
      modifies this`timeLeft
      ensures timeLeft == p.timeLeft
    {
      timeLeft := p.timeLeft;
    }

    /** `round-reveal`: the answer is shown. */
    method OnRoundReveal(p: RoundReveal)
      requires Subscribed()
      modifies this`phase, this`lastAnswer
      ensures phase == Revealing && lastAnswer == Some(p.answer)
    {
      phase := Revealing;
      lastAnswer := Some(p.answer);
    }

    /** `scores-updated`: only the scores change. */
    method OnScoresUpdated(p: ScoresUpdated)
      requires Subscribed()
      modifies this`scores
      ensures scores == p.scores
    {
      scores := p.scores;
    }

    /** `game-finished`: final scores, then back to the lobby page. */
    method OnGameFinished(p: GameFinished)
      requires Subscribed()
      modifies this`phase, this`scores, this`location
      ensures phase == Finished && scores == p.scores && location == Some("/lobby")
    {
      phase := Finished;
      scores := p.scores;
      location := Some("/lobby");
    }

    /**
     * `submitGuess`: nothing is sent while the trimmed guess, the lobby id or
     * the user id is empty; otherwise the trimmed guess goes out with the
     * current title and the input is cleared.
     */
    method SubmitGuess()
      modifies this`outbox, this`guess
      ensures var value := Trim(old(guess));
        if value == [] || lobbyId == "" || !Truthy(userId) then
          outbox == old(outbox) && guess == old(guess)
        else
          outbox == old(outbox) + [SubmitGuessMsg(lobbyId, userId.value, value, musicTitle)] && guess == ""
    {
      var value := Trim(guess);
      if value == [] || lobbyId == "" || !Truthy(userId) {
        return;
      }
      outbox := outbox + [SubmitGuessMsg(lobbyId, userId.value, value, musicTitle)];
      guess := "";
    }
  }
}
