/** The space shooter's state and its transitions, as values.

    A `World` is what one `SpaceShooter` view holds: the pause flag, the
    score, whether the game-over view has been shown (and with which score),
    the player, and the three kinds of flying sprites. The imperative classes
    in module `Shooter` are proved to follow these functions. */
module ShooterSpec {
  import opened Geometry

  datatype Option<T> = None | Some(value: T)

  /** The three kinds of flying sprites the spawners create. */
  datatype Kind = Enemy | Cloud | Coin

  /** The keys the shooter view and the game-over view react to; any other
      key symbol is `Other`. */
  datatype Key = P | Q | R | I | J | K | L | Up | Down | Left | Right | Other(symbol: int)

  datatype World = World(
    paused: bool,
    score: int,
    gameOver: Option<int>,   // Some(s) once the game-over view showing s has been shown
    player: Entity,
    enemies: seq<Entity>,
    clouds: seq<Entity>,
    coins: seq<Entity>)
  {
    /** The list holding sprites of the given kind. */
    function List(kind: Kind): seq<Entity>
    {
      match kind
      case Enemy => enemies
      case Cloud => clouds
      case Coin => coins
    }
  }

  /** The view right after `setup`: not paused, score 0, no sprites but the
      player, whose left edge is at 10 and whose centre is at half height
      (half a pixel lower when its height is odd). */
  function Initial(playerWidth: nat, playerHeight: nat): (w: World)
    ensures !w.paused && w.score == 0 && w.gameOver == None
    ensures w.enemies == [] && w.clouds == [] && w.coins == []
    ensures w.player.changeX == 0 && w.player.changeY == 0
    ensures w.player.left == 10 && w.player.width == playerWidth && w.player.height == playerHeight
    ensures w.player.bottom + w.player.Top() == ScreenHeight - playerHeight % 2
    ensures playerWidth <= ScreenWidth - 10 && playerHeight <= ScreenHeight ==> OnScreen(w.player)
  {
    World(false, 0, None,
          Entity(10, ScreenHeight / 2 - (playerHeight + 1) / 2, playerWidth, playerHeight, 0, 0),
          [], [], [])
  }

  // ---------------------------------------------------------------------
  // Collisions

  /** `collides_with_list` is non-empty. */
  predicate HitsAny(p: Entity, es: seq<Entity>)
  {
    exists i :: 0 <= i < |es| && Overlaps(p, es[i])
  }

  /** How many sprites of `es` the player overlaps. */
  function CountHits(p: Entity, es: seq<Entity>): nat
  {
    if es == [] then 0 else (if Overlaps(p, es[0]) then 1 else 0) + CountHits(p, es[1..])
  }

  /** Some sprite is hit exactly when the number of hit sprites is positive. */
  lemma {:induction false} CountHitsPositive(p: Entity, es: seq<Entity>)
    ensures CountHits(p, es) > 0 <==> HitsAny(p, es)
  {
    if es != [] {
      CountHitsPositive(p, es[1..]);
      if HitsAny(p, es[1..]) {
        var i :| 0 <= i < |es[1..]| && Overlaps(p, es[1..][i]);
        assert Overlaps(p, es[i + 1]);
      }
      if HitsAny(p, es) && !Overlaps(p, es[0]) {
        var i :| 0 <= i < |es| && Overlaps(p, es[i]);
        assert Overlaps(p, es[1..][i - 1]);
      }
    }
  }

  /** The sprites of `es` the player does not overlap, in order: what is left
      of the coin list after the colliding coins have been removed. */
  function Missed(p: Entity, es: seq<Entity>): (r: seq<Entity>)
    ensures forall e :: e in r ==> e in es && !Overlaps(p, e)
    ensures forall e :: e in es && !Overlaps(p, e) ==> e in r
    ensures |r| + CountHits(p, es) == |es|
  {
    if es == [] then []
    else (if Overlaps(p, es[0]) then [] else [es[0]]) + Missed(p, es[1..])
  }

  // ---------------------------------------------------------------------
  // Movement of the flying sprites

  /** `FlyingSprite.update` on a whole list: every sprite advances one frame,
      and those whose right edge is then below 0 leave the list. */
  function Advance(es: seq<Entity>): (r: seq<Entity>)
    ensures |r| <= |es|
  {
    if es == [] then []
    else (if OffLeft(Step(es[0])) then [] else [Step(es[0])]) + Advance(es[1..])
  }

  /** What `Advance` keeps: no sprite off the left edge, each kept sprite is
      the step of an old one, and every old sprite whose step is not off the
      left edge is kept. */
  lemma {:induction false} AdvanceSpec(es: seq<Entity>)
    ensures forall j :: 0 <= j < |Advance(es)| ==> !OffLeft(Advance(es)[j])
    ensures forall j :: 0 <= j < |Advance(es)| ==> exists i :: 0 <= i < |es| && Advance(es)[j] == Step(es[i])
    ensures forall i :: 0 <= i < |es| && !OffLeft(Step(es[i])) ==> Step(es[i]) in Advance(es)
  {
    if es != [] {
      AdvanceSpec(es[1..]);
      var rest := Advance(es[1..]);
      var head := if OffLeft(Step(es[0])) then [] else [Step(es[0])];
      var r := Advance(es);
      assert r == head + rest;
      forall j | 0 <= j < |r|
        ensures !OffLeft(r[j])
      {
        if j >= |head| {
          assert r[j] == rest[j - |head|];
        }
      }
      forall j | 0 <= j < |r|
        ensures exists i :: 0 <= i < |es| && r[j] == Step(es[i])
      {
        if j < |head| {
          assert r[j] == Step(es[0]);
        } else {
          assert r[j] == rest[j - |head|];
          var i :| 0 <= i < |es[1..]| && rest[j - |head|] == Step(es[1..][i]);
          assert r[j] == Step(es[i + 1]);
        }
      }
      forall i | 0 <= i < |es| && !OffLeft(Step(es[i]))
        ensures Step(es[i]) in r
      {
        if i == 0 {
          assert r[0] == Step(es[0]);
        } else {
          assert es[i] == es[1..][i - 1];
          assert Step(es[i]) in rest;
        }
      }
    } else {
      assert Advance(es) == [];
    }
  }

  // ---------------------------------------------------------------------
  // The per-frame tick (`on_update`)

  /** The coins after a frame: those the player overlaps are taken away
      before the sprites move, the rest advance like any flying sprite. */
  function CoinsAfter(p: Entity, coins: seq<Entity>): (r: seq<Entity>)
    ensures forall e :: e in r ==> !OffLeft(e)
    ensures forall e :: e in r ==> exists c :: c in coins && !Overlaps(p, c) && e == Step(c)
    ensures forall c :: c in coins && !Overlaps(p, c) && !OffLeft(Step(c)) ==> Step(c) in r
  {
    var left := Missed(p, coins);
    var r := Advance(left);
    AdvanceSpec(left);
    assert forall e :: e in r ==> exists c :: c in coins && !Overlaps(p, c) && e == Step(c) by {
      forall e | e in r
        ensures exists c :: c in coins && !Overlaps(p, c) && e == Step(c)
      {
        var j :| 0 <= j < |r| && r[j] == e;
        var i :| 0 <= i < |left| && r[j] == Step(left[i]);
        assert left[i] in left;
      }
    }
    assert forall c :: c in coins && !Overlaps(p, c) && !OffLeft(Step(c)) ==> Step(c) in r by {
      forall c | c in coins && !Overlaps(p, c) && !OffLeft(Step(c))
        ensures Step(c) in r
      {
        assert c in left;
        var i :| 0 <= i < |left| && left[i] == c;
      }
    }
    r
  }

  /** One call of `on_update`. While paused nothing happens. Otherwise, in
      order: an enemy overlapping the player shows the game-over view with
      the score as it is now; coins overlapping the player add 1 to the
      score and are removed; every sprite moves (flying sprites that leave
      the screen are removed); the player is clamped to the screen. */
  function Tick(w: World): (r: World)
    ensures w.paused ==> r == w
    ensures w.score <= r.score <= w.score + 1
    ensures r.score == w.score + 1 <==> !w.paused && HitsAny(w.player, w.coins)
    ensures r.gameOver == (if !w.paused && HitsAny(w.player, w.enemies) then Some(w.score) else w.gameOver)
    ensures !w.paused ==> !r.paused && r.player == ClampToScreen(Step(w.player))
    ensures !w.paused ==> r.enemies == Advance(w.enemies) && r.clouds == Advance(w.clouds)
    ensures !w.paused ==> r.coins == Advance(Missed(w.player, w.coins))
    ensures !w.paused && FitsScreen(w.player) ==> OnScreen(r.player)
    ensures !w.paused ==> forall e :: e in r.enemies ==> !OffLeft(e)
    ensures !w.paused ==> forall e :: e in r.clouds ==> !OffLeft(e)
    ensures !w.paused ==> forall e :: e in r.coins ==> !OffLeft(e)
    ensures !w.paused ==> forall e :: e in r.coins ==> exists c :: c in w.coins && !Overlaps(w.player, c) && e == Step(c)
    ensures !w.paused ==> forall c :: c in w.coins && !Overlaps(w.player, c) && !OffLeft(Step(c)) ==> Step(c) in r.coins
  {
    if w.paused then w
    else
      var gameOver := if HitsAny(w.player, w.enemies) then Some(w.score) else w.gameOver;
      var score := if HitsAny(w.player, w.coins) then w.score + 1 else w.score;
      var enemies := Advance(w.enemies);
      var clouds := Advance(w.clouds);
      AdvanceSpec(w.enemies);
      AdvanceSpec(w.clouds);
      assert forall e :: e in enemies ==> !OffLeft(e) by {
        forall e | e in enemies ensures !OffLeft(e) { var j :| 0 <= j < |enemies| && enemies[j] == e; }
      }
      assert forall e :: e in clouds ==> !OffLeft(e) by {
        forall e | e in clouds ensures !OffLeft(e) { var j :| 0 <= j < |clouds| && clouds[j] == e; }
      }
      World(false, score, gameOver, ClampToScreen(Step(w.player)),
            enemies, clouds, CoinsAfter(w.player, w.coins))
  }

  // The four phases of an unpaused frame, in the order `on_update` runs them.

  /** An enemy collision shows the game-over view with the current score;
      nothing else changes. */
  function EnemyCheck(w: World): (r: World)
    ensures HitsAny(w.player, w.enemies) ==> r.gameOver == Some(w.score)
    ensures !HitsAny(w.player, w.enemies) ==> r == w
    ensures r.(gameOver := w.gameOver) == w
  {
    w.(gameOver := if HitsAny(w.player, w.enemies) then Some(w.score) else w.gameOver)
  }

  /** A coin collision adds one to the score and takes the touched coins
      away; nothing else changes. */
  function CoinPickup(w: World): (r: World)
    ensures r.score == (if CountHits(w.player, w.coins) > 0 then w.score + 1 else w.score)
    ensures |r.coins| == |w.coins| - CountHits(w.player, w.coins)
    ensures r.coins == Missed(w.player, w.coins)
    ensures r.(score := w.score, coins := w.coins) == w
  {
    CountHitsPositive(w.player, w.coins);
    w.(score := if HitsAny(w.player, w.coins) then w.score + 1 else w.score,
       coins := Missed(w.player, w.coins))
  }

  /** Every sprite moves; flying sprites off the left edge disappear. */
  function Move(w: World): (r: World)
    ensures r.player == Step(w.player)
    ensures forall j :: 0 <= j < |r.enemies| ==> !OffLeft(r.enemies[j])
    ensures forall j :: 0 <= j < |r.clouds| ==> !OffLeft(r.clouds[j])
    ensures forall j :: 0 <= j < |r.coins| ==> !OffLeft(r.coins[j])
    ensures |r.enemies| <= |w.enemies| && |r.clouds| <= |w.clouds| && |r.coins| <= |w.coins|
    ensures r.enemies == Advance(w.enemies) && r.clouds == Advance(w.clouds) && r.coins == Advance(w.coins)
    ensures r.(player := w.player, enemies := w.enemies, clouds := w.clouds, coins := w.coins) == w
  {
    AdvanceSpec(w.enemies);
    AdvanceSpec(w.clouds);
    AdvanceSpec(w.coins);
    w.(player := Step(w.player), enemies := Advance(w.enemies),
       clouds := Advance(w.clouds), coins := Advance(w.coins))
  }

  /** The player is clamped to the screen; nothing else changes. */
  function KeepOnScreen(w: World): (r: World)
    ensures r.player == ClampToScreen(w.player)
    ensures FitsScreen(w.player) ==> OnScreen(r.player)
    ensures OnScreen(w.player) ==> r == w
    ensures r.(player := w.player) == w
  {
    w.(player := ClampToScreen(w.player))
  }

  /** An unpaused frame is the four phases one after the other. */
  lemma TickPhases(w: World)
    requires !w.paused
    ensures Tick(w) == KeepOnScreen(Move(CoinPickup(EnemyCheck(w))))
  {
  }

  /** However many coins the player overlaps, the score grows by exactly one,
      and exactly that many coins leave the list before the sprites move. */
  lemma CoinPickupScoresOnce(w: World)
    requires !w.paused
    ensures Tick(w).score == w.score + (if CountHits(w.player, w.coins) > 0 then 1 else 0)
    ensures |Tick(w).coins| <= |w.coins| - CountHits(w.player, w.coins)
  {
    CountHitsPositive(w.player, w.coins);
  }

  // ---------------------------------------------------------------------
  // Spawners (`add_enemy`, `add_cloud`, `add_coin`)

  /** The ranges the spawners draw from with `randint`: left edge just right
      of the screen, top edge within the screen (coins are placed from 50
      up to the top), no vertical velocity, and a horizontal velocity of
      -13..-5 for enemies and -5..-2 for clouds and coins. */
  predicate SpawnDraw(kind: Kind, e: Entity)
  {
    && ScreenWidth <= e.left <= ScreenWidth + 80
    && (if kind == Coin then 50 <= e.Top() <= ScreenHeight else 10 <= e.Top() <= ScreenHeight - 10)
    && e.changeY == 0
    && (if kind == Enemy then -13 <= e.changeX <= -5 else -5 <= e.changeX <= -2)
  }

  /** One spawner call: nothing while paused, otherwise `e` is appended to
      the list of its kind and every other part of the world is kept. */
  function Spawn(w: World, kind: Kind, e: Entity): (r: World)
    ensures w.paused ==> r == w
    ensures !w.paused ==> r.List(kind) == w.List(kind) + [e]
    ensures forall k :: k != kind ==> r.List(k) == w.List(k)
    ensures r.paused == w.paused && r.score == w.score && r.gameOver == w.gameOver && r.player == w.player
  {
    if w.paused then w
    else match kind
      case Enemy => w.(enemies := w.enemies + [e])
      case Cloud => w.(clouds := w.clouds + [e])
      case Coin => w.(coins := w.coins + [e])
  }

  // ---------------------------------------------------------------------
  // Keyboard (`on_key_press`, `on_key_release`)

  predicate IsUpKey(key: Key) { key == I || key == Up }
  predicate IsDownKey(key: Key) { key == K || key == Down }
  predicate IsLeftKey(key: Key) { key == J || key == Left }
  predicate IsRightKey(key: Key) { key == L || key == Right }
  predicate IsVertical(key: Key) { IsUpKey(key) || IsDownKey(key) }
  predicate IsHorizontal(key: Key) { IsLeftKey(key) || IsRightKey(key) }

  /** A key press: P flips the pause flag, a movement key sets one velocity
      axis of the player to 5 pixels per frame in its direction. The press is
      handled whether or not the game is paused; the player does not move. */
  function Press(w: World, key: Key): (r: World)
    ensures r.paused == (if key == P then !w.paused else w.paused)
    ensures IsUpKey(key) ==> r.player.changeY == 5
    ensures IsDownKey(key) ==> r.player.changeY == -5
    ensures IsLeftKey(key) ==> r.player.changeX == -5
    ensures IsRightKey(key) ==> r.player.changeX == 5
    ensures !IsVertical(key) ==> r.player.changeY == w.player.changeY
    ensures !IsHorizontal(key) ==> r.player.changeX == w.player.changeX
    ensures r.player.(changeX := 0, changeY := 0) == w.player.(changeX := 0, changeY := 0)
    ensures r.(paused := w.paused, player := w.player) == w
  {
    var paused := if key == P then !w.paused else w.paused;
    var vy := if IsUpKey(key) then 5 else if IsDownKey(key) then -5 else w.player.changeY;
    var vx := if IsLeftKey(key) then -5 else if IsRightKey(key) then 5 else w.player.changeX;
    w.(paused := paused, player := w.player.(changeX := vx, changeY := vy))
  }

  /** A key release: a vertical movement key stops vertical motion, a
      horizontal one stops horizontal motion; nothing else changes. */
  function Release(w: World, key: Key): (r: World)
    ensures IsVertical(key) ==> r.player.changeY == 0
    ensures IsHorizontal(key) ==> r.player.changeX == 0
    ensures !IsVertical(key) ==> r.player.changeY == w.player.changeY
    ensures !IsHorizontal(key) ==> r.player.changeX == w.player.changeX
    ensures r.player.(changeX := 0, changeY := 0) == w.player.(changeX := 0, changeY := 0)
    ensures r.(player := w.player) == w
  {
    var vy := if IsVertical(key) then 0 else w.player.changeY;
    var vx := if IsHorizontal(key) then 0 else w.player.changeX;
    w.(player := w.player.(changeX := vx, changeY := vy))
  }

  /** Pressing P twice leaves the world as it was. */
  lemma PauseTwice(w: World)
    ensures Press(Press(w, P), P) == w
  {
  }

  /** Pressing a movement key and releasing it stops motion on that axis and
      keeps the other axis, whatever the velocity was before. */
  lemma PressThenRelease(w: World, key: Key)
    requires IsVertical(key) || IsHorizontal(key)
    ensures var r := Release(Press(w, key), key);
      r == w.(player := if IsVertical(key) then w.player.(changeY := 0) else w.player.(changeX := 0))
  {
  }

  // ---------------------------------------------------------------------
  // Runs of events

  /** What the environment can do to the shooter view: a frame, a spawner
      firing with the values it drew, a key going down or up. */
  datatype Event = Frame | SpawnEvent(kind: Kind, e: Entity) | KeyDown(key: Key) | KeyUp(key: Key)

  function Apply(w: World, ev: Event): World
  {
    match ev
    case Frame => Tick(w)
    case SpawnEvent(kind, e) => Spawn(w, kind, e)
    case KeyDown(key) => Press(w, key)
    case KeyUp(key) => Release(w, key)
  }

  function Run(w: World, evs: seq<Event>): World
    decreases |evs|
  {
    if evs == [] then w else Run(Apply(w, evs[0]), evs[1..])
  }

  function Frames(evs: seq<Event>): nat
  {
    if evs == [] then 0 else (if evs[0] == Frame then 1 else 0) + Frames(evs[1..])
  }

  /** The score never decreases, and it grows by at most one per frame: the
      only update anywhere is the `+= 1` of a coin pickup. */
  lemma {:induction false} ScoreNeverDecreases(w: World, evs: seq<Event>)
    ensures w.score <= Run(w, evs).score <= w.score + Frames(evs)
    decreases |evs|
  {
    if evs != [] {
      ScoreNeverDecreases(Apply(w, evs[0]), evs[1..]);
    }
  }

  /** While paused, frames and spawner calls leave the world exactly as it
      is: the game is frozen until P is pressed again. */
  lemma {:induction false} PausedIsFrozen(w: World, evs: seq<Event>)
    requires w.paused
    requires forall i :: 0 <= i < |evs| ==> evs[i].Frame? || evs[i].SpawnEvent?
    ensures Run(w, evs) == w
    decreases |evs|
  {
    if evs != [] {
      assert Apply(w, evs[0]) == w;
      PausedIsFrozen(w, evs[1..]);
    }
  }

  // ---------------------------------------------------------------------
  // An invariant of every reachable world

  /** Every sprite of the kind list moves left, horizontally only, at a speed
      its spawner can draw, and has not been pushed right of its spawn area. */
  predicate KindInvariant(kind: Kind, es: seq<Entity>)
  {
    forall i :: 0 <= i < |es| ==>
      && es[i].changeY == 0
      && (if kind == Enemy then -13 <= es[i].changeX <= -5 else -5 <= es[i].changeX <= -2)
      && es[i].left <= ScreenWidth + 80
  }

  /** The player fits on the screen and is on it; the flying sprites obey
      `KindInvariant`. */
  predicate Invariant(w: World)
  {
    && FitsScreen(w.player) && OnScreen(w.player)
    && KindInvariant(Enemy, w.enemies)
    && KindInvariant(Cloud, w.clouds)
    && KindInvariant(Coin, w.coins)
  }

  lemma InitialInvariant(playerWidth: nat, playerHeight: nat)
    requires playerWidth <= ScreenWidth - 10 && playerHeight <= ScreenHeight
    ensures Invariant(Initial(playerWidth, playerHeight))
  {
  }

  /** Moving a list keeps its kind's invariant: velocities do not change
      and moving left never increases the left edge. */
  lemma AdvanceKeeps(kind: Kind, es: seq<Entity>)
    requires KindInvariant(kind, es)
    ensures KindInvariant(kind, Advance(es))
  {
    var r := Advance(es);
    AdvanceSpec(es);
    forall j | 0 <= j < |r|
      ensures r[j].changeY == 0
      ensures if kind == Enemy then -13 <= r[j].changeX <= -5 else -5 <= r[j].changeX <= -2
      ensures r[j].left <= ScreenWidth + 80
    {
      var i :| 0 <= i < |es| && r[j] == Step(es[i]);
    }
  }

  lemma MissedKeeps(kind: Kind, p: Entity, es: seq<Entity>)
    requires KindInvariant(kind, es)
    ensures KindInvariant(kind, Missed(p, es))
  {
    var r := Missed(p, es);
    forall j | 0 <= j < |r|
      ensures r[j].changeY == 0
      ensures if kind == Enemy then -13 <= r[j].changeX <= -5 else -5 <= r[j].changeX <= -2
      ensures r[j].left <= ScreenWidth + 80
    {
      assert r[j] in r;
      var i :| 0 <= i < |es| && es[i] == r[j];
    }
  }

  /** Every event keeps the invariant, provided spawners draw from their
      ranges. */
  lemma ApplyKeeps(w: World, ev: Event)
    requires Invariant(w)
    requires ev.SpawnEvent? ==> SpawnDraw(ev.kind, ev.e)
    ensures Invariant(Apply(w, ev))
  {
    match ev
    case Frame =>
      if !w.paused {
        AdvanceKeeps(Enemy, w.enemies);
        AdvanceKeeps(Cloud, w.clouds);
        MissedKeeps(Coin, w.player, w.coins);
        AdvanceKeeps(Coin, Missed(w.player, w.coins));
        assert Tick(w).coins == Advance(Missed(w.player, w.coins));
      }
    case SpawnEvent(kind, e) =>
    case KeyDown(key) =>
    case KeyUp(key) =>
  }

  /** The invariant holds after any run of events whose spawns draw from
      their ranges: the player stays on screen, every flying sprite keeps
      moving left at its kind's speed. */
  lemma {:induction false} RunKeeps(w: World, evs: seq<Event>)
    requires Invariant(w)
    requires forall i :: 0 <= i < |evs| && evs[i].SpawnEvent? ==> SpawnDraw(evs[i].kind, evs[i].e)
    ensures Invariant(Run(w, evs))
    decreases |evs|
  {
    if evs != [] {
      ApplyKeeps(w, evs[0]);
      RunKeeps(Apply(w, evs[0]), evs[1..]);
    }
  }
}
