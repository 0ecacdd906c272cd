/** The shooter view as the program runs it: sprite objects shared between
    the per-kind lists and `all_sprites`, and methods that update them in
    place. Each method is proved to follow the value-level functions of
    module `ShooterSpec` through `SpaceShooter.Model`. */
module Shooter {
  import opened Geometry
  import opened SeqFilter
  import opened ShooterSpec

  /** An `arcade.Sprite` with integer geometry. `flying` marks the
      `FlyingSprite` subclass, whose update also despawns it. */
  class Sprite {
    var left: int
    var bottom: int
    const width: nat
    const height: nat
    var changeX: int
    var changeY: int
    const flying: bool

    constructor (e: Entity, flying: bool)
      ensures Value() == e && this.flying == flying
    {
      left, bottom, width, height := e.left, e.bottom, e.width, e.height;
      changeX, changeY := e.changeX, e.changeY;
      this.flying := flying;
    }

    /** The sprite's current state as a value. */
    function Value(): Entity
      reads this
    {
      Entity(left, bottom, width, height, changeX, changeY)
    }

    /** `arcade.Sprite.update`: move by the velocity. */
    method Update()
      modifies this
      ensures Value() == Step(old(Value()))
    {
      left := left + changeX;
      bottom := bottom + changeY;
    }
  }

  /** The states of a list of sprites, in order. */
  ghost function Values(xs: seq<Sprite>): (r: seq<Entity>)
    reads xs
    ensures |r| == |xs|
  {
    seq(|xs|, i requires 0 <= i < |xs| reads xs => xs[i].Value())
  }

  /** `collides_with_list`: the sprites of `xs` whose boxes overlap `s`'s,
      in list order. Its result is non-empty exactly when some state in
      `Values(xs)` overlaps. */
  method CollidesWithList(s: Sprite, xs: seq<Sprite>) returns (hits: seq<Sprite>)
    ensures forall x :: x in hits ==> x in xs && Overlaps(s.Value(), x.Value())
    ensures forall x :: x in xs && Overlaps(s.Value(), x.Value()) ==> x in hits
    ensures |hits| > 0 <==> HitsAny(s.Value(), Values(xs))
  {
    hits := [];
    var i := 0;
    while i < |xs|
      invariant 0 <= i <= |xs|
      invariant forall x :: x in hits ==> x in xs[..i] && Overlaps(s.Value(), x.Value())
      invariant forall j :: 0 <= j < i && Overlaps(s.Value(), xs[j].Value()) ==> xs[j] in hits
    {
      if Overlaps(s.Value(), xs[i].Value()) {
        hits := hits + [xs[i]];
      }
      i := i + 1;
    }
    assert xs[..i] == xs;
    if |hits| > 0 {
      assert hits[0] in hits;
      var j :| 0 <= j < |xs| && xs[j] == hits[0];
      assert Overlaps(s.Value(), Values(xs)[j]);
    }
    if HitsAny(s.Value(), Values(xs)) {
      var j :| 0 <= j < |xs| && Overlaps(s.Value(), Values(xs)[j]);
      assert xs[j] in hits;
    }
  }

  /** The states of `xs` after removing the sprites the player overlaps are
      the states `Missed` keeps. */
  lemma ValuesMissed(p: Entity, xs: seq<Sprite>, hits: set<Sprite>)
    requires forall x :: x in xs ==> (x in hits <==> Overlaps(p, x.Value()))
    ensures Values(Without(xs, hits)) == Missed(p, Values(xs))
  {
    ValuesWithout(xs, hits);
    var vs := Values(xs);
    forall i | 0 <= i < |xs|
      ensures xs[i] in hits <==> Overlaps(p, vs[i])
    {
      assert xs[i] in xs;
    }
    KeepMissed(xs, vs, hits, p);
  }

  /** Keeping the states whose sprites are not among the overlapping ones
      is keeping the states that do not overlap. */
  lemma {:induction false} KeepMissed<T>(xs: seq<T>, vs: seq<Entity>, gone: set<T>, p: Entity)
    requires |xs| == |vs|
    requires forall i :: 0 <= i < |xs| ==> (xs[i] in gone <==> Overlaps(p, vs[i]))
    ensures Keep(xs, vs, gone) == Missed(p, vs)
  {
    if xs != [] {
      KeepMissed(xs[1..], vs[1..], gone, p);
    }
  }

  lemma {:induction false} ValuesAppend(xs: seq<Sprite>, ys: seq<Sprite>)
    ensures Values(xs + ys) == Values(xs) + Values(ys)
  {
  }

  /** The states `vs` of those sprites of `xs` that are not in `gone`. */
  function Keep<T>(xs: seq<T>, vs: seq<Entity>, gone: set<T>): seq<Entity>
    requires |xs| == |vs|
  {
    if xs == [] then [] else (if xs[0] in gone then [] else [vs[0]]) + Keep(xs[1..], vs[1..], gone)
  }

  lemma {:induction false} ValuesWithout(xs: seq<Sprite>, gone: set<Sprite>)
    ensures Values(Without(xs, gone)) == Keep(xs, Values(xs), gone)
  {
    if xs != [] {
      ValuesWithout(xs[1..], gone);
      assert Values(xs)[1..] == Values(xs[1..]);
      var head := if xs[0] in gone then [] else [xs[0]];
      ValuesAppend(head, Without(xs[1..], gone));
    }
  }

  /** If each sprite's state went from `before[i]` to `after[i]` by one step,
      and exactly the sprites now off the left edge are in `gone`, then what
      is kept is `Advance(before)`. */
  lemma {:induction false} KeepAdvance<T>(xs: seq<T>, before: seq<Entity>, after: seq<Entity>, gone: set<T>)
    requires |xs| == |before| == |after|
    requires forall i :: 0 <= i < |xs| ==> after[i] == Step(before[i])
    requires forall i :: 0 <= i < |xs| ==> (xs[i] in gone <==> OffLeft(after[i]))
    ensures Keep(xs, after, gone) == Advance(before)
  {
    if xs != [] {
      KeepAdvance(xs[1..], before[1..], after[1..], gone);
    }
  }

  /** If every sprite of `xs` has taken one step from the states `before`
      and `gone` holds exactly those now off the left edge, then the states
      of what is left are `Advance(before)`. */
  lemma ValuesAdvance(xs: seq<Sprite>, before: seq<Entity>, gone: set<Sprite>)
    requires |before| == |xs|
    requires forall i :: 0 <= i < |xs| ==> xs[i].Value() == Step(before[i])
    requires forall x :: x in xs ==> (x in gone <==> OffLeft(x.Value()))
    ensures Values(Without(xs, gone)) == Advance(before)
  {
    ValuesWithout(xs, gone);
    var after := Values(xs);
    forall i | 0 <= i < |xs|
      ensures xs[i] in gone <==> OffLeft(after[i])
    {
      assert xs[i] in xs;
    }
    KeepAdvance(xs, before, after, gone);
  }

  /** The sprite lists of a shooter view: `all` holds the (non-flying)
      player and every flying sprite, once each, and every flying sprite is
      in exactly one of the kind lists. */
  ghost predicate Partitioned(player: Sprite, all: seq<Sprite>, enemies: seq<Sprite>, clouds: seq<Sprite>, coins: seq<Sprite>)
  {
    && player in all && !player.flying
    && Distinct(all)
    && (forall s :: s in enemies ==> s in all && s.flying && s !in clouds && s !in coins)
    && (forall s :: s in clouds ==> s in all && s.flying && s !in coins)
    && (forall s :: s in coins ==> s in all && s.flying)
    && (forall s :: s in all ==> s == player || s in enemies || s in clouds || s in coins)
  }

  /** Removing flying sprites from every list keeps the lists partitioned. */
  lemma PartitionedWithout(player: Sprite, all: seq<Sprite>, enemies: seq<Sprite>, clouds: seq<Sprite>, coins: seq<Sprite>, gone: set<Sprite>)
    requires Partitioned(player, all, enemies, clouds, coins) && player !in gone
    ensures Partitioned(player, Without(all, gone), Without(enemies, gone), Without(clouds, gone), Without(coins, gone))
  {
    WithoutDistinct(all, gone);
    WithoutMembers(all, gone);
    WithoutMembers(enemies, gone);
    WithoutMembers(clouds, gone);
    WithoutMembers(coins, gone);
  }

  /** The game-over view, created with the score to show. */
  class GameOverView {
    const score: int

    constructor (score: int)
      ensures this.score == score
    {
      this.score := score;
    }

    /** R starts a fresh game (a new shooter view, set up); any other key
        leaves this view showing. */
    method OnKeyPress(key: Key, playerWidth: nat, playerHeight: nat) returns (game: SpaceShooter?)
      ensures (game != null) == (key == R)
      ensures game != null ==>
        fresh(game) && game.Valid() && game.Model() == Initial(playerWidth, playerHeight)
    {
      game := null;
      if key == R {
        game := new SpaceShooter(playerWidth, playerHeight);
      }
    }
  }

  /** The `SpaceShooter` view after `setup`. */
  class SpaceShooter {
    const player: Sprite
    var enemies: seq<Sprite>
    var clouds: seq<Sprite>
    var coins: seq<Sprite>
    var allSprites: seq<Sprite>
    var paused: bool
    var score: int
    /** The view shown in place of this one after an enemy collision. */
    var gameOverView: GameOverView?

    /** `all_sprites` holds the player and every flying sprite, once each;
        every flying sprite is in exactly one kind list. */
    ghost predicate Valid()
      reads this
    {
      Partitioned(player, allSprites, enemies, clouds, coins)
    }

    /** The view's state as a value. */
    ghost function Model(): World
      reads this, player, enemies, clouds, coins
    {
      World(paused, score,
            if gameOverView == null then None else Some(gameOverView.score),
            player.Value(), Values(enemies), Values(clouds), Values(coins))
    }

    /** `__init__` followed by `setup`. */
    constructor (playerWidth: nat, playerHeight: nat)
      ensures Valid() && Model() == Initial(playerWidth, playerHeight)
      ensures fresh(player) && allSprites == [player]
    {
      var p := new Sprite(Entity(10, ScreenHeight / 2 - (playerHeight + 1) / 2, playerWidth, playerHeight, 0, 0), false);
      player := p;
      enemies, clouds, coins := [], [], [];
      allSprites := [p];
      paused := false;
      score := 0;
      gameOverView := null;
    }

    /** `add_enemy`, given what it draws with `randint`: the left edge, the
        top edge and the horizontal speed; `width` and `height` are those of
        the scaled enemy texture. While paused it does nothing; otherwise one
        new enemy joins `enemies_list` and `all_sprites`. */
    method AddEnemy(left: int, top: int, changeX: int, width: nat, height: nat)
      requires Valid()
      requires ScreenWidth <= left <= ScreenWidth + 80 && 10 <= top <= ScreenHeight - 10 && -13 <= changeX <= -5
      modifies this
      ensures Valid()
      ensures Model() == Spawn(old(Model()), Enemy, Entity(left, top - height, width, height, changeX, 0))
      ensures SpawnDraw(Enemy, Entity(left, top - height, width, height, changeX, 0))
      ensures old(paused) ==> unchanged(this)
      ensures !old(paused) ==>
        && |allSprites| == |old(allSprites)| + 1
        && fresh(allSprites[|allSprites| - 1])
        && allSprites == old(allSprites) + [allSprites[|allSprites| - 1]]
        && enemies == old(enemies) + [allSprites[|allSprites| - 1]]
        && clouds == old(clouds) && coins == old(coins)
    {
      if paused {
        return;
      }
      var s := new Sprite(Entity(left, top - height, width, height, changeX, 0), true);
      DistinctAppend(allSprites, s);
      enemies := enemies + [s];
      allSprites := allSprites + [s];
      assert Values(enemies) == old(Values(enemies)) + [s.Value()];
    }

    /** `add_cloud`: as `AddEnemy`, with horizontal speeds -5..-2. */
    method AddCloud(left: int, top: int, changeX: int, width: nat, height: nat)
      requires Valid()
      requires ScreenWidth <= left <= ScreenWidth + 80 && 10 <= top <= ScreenHeight - 10 && -5 <= changeX <= -2
      modifies this
      ensures Valid()
      ensures Model() == Spawn(old(Model()), Cloud, Entity(left, top - height, width, height, changeX, 0))
      ensures SpawnDraw(Cloud, Entity(left, top - height, width, height, changeX, 0))
      ensures old(paused) ==> unchanged(this)
      ensures !old(paused) ==>
        && |allSprites| == |old(allSprites)| + 1
        && fresh(allSprites[|allSprites| - 1])
        && allSprites == old(allSprites) + [allSprites[|allSprites| - 1]]
        && clouds == old(clouds) + [allSprites[|allSprites| - 1]]
        && enemies == old(enemies) && coins == old(coins)
    {
      if paused {
        return;
      }
      var s := new Sprite(Entity(left, top - height, width, height, changeX, 0), true);
      DistinctAppend(allSprites, s);
      clouds := clouds + [s];
      allSprites := allSprites + [s];
      assert Values(clouds) == old(Values(clouds)) + [s.Value()];
    }

    /** `add_coin`: as `AddEnemy`, with the top edge drawn from 50 up to the
        screen height and horizontal speeds -5..-2. */
    method AddCoin(left: int, top: int, changeX: int, width: nat, height: nat)
      requires Valid()
      requires ScreenWidth <= left <= ScreenWidth + 80 && 50 <= top <= ScreenHeight && -5 <= changeX <= -2
      modifies this
      ensures Valid()
      ensures Model() == Spawn(old(Model()), Coin, Entity(left, top - height, width, height, changeX, 0))
      ensures SpawnDraw(Coin, Entity(left, top - height, width, height, changeX, 0))
      ensures old(paused) ==> unchanged(this)
      ensures !old(paused) ==>
        && |allSprites| == |old(allSprites)| + 1
        && fresh(allSprites[|allSprites| - 1])
        && allSprites == old(allSprites) + [allSprites[|allSprites| - 1]]
        && coins == old(coins) + [allSprites[|allSprites| - 1]]
        && enemies == old(enemies) && clouds == old(clouds)
    {
      if paused {
        return;
      }
      var s := new Sprite(Entity(left, top - height, width, height, changeX, 0), true);
      DistinctAppend(allSprites, s);
      coins := coins + [s];
      allSprites := allSprites + [s];
      assert Values(coins) == old(Values(coins)) + [s.Value()];
    }

    /** `remove_from_sprite_lists`: the sprite leaves every list it is in;
        the others keep their order. */
    method RemoveFromSpriteLists(s: Sprite)
      modifies this
      ensures enemies == Without(old(enemies), {s}) && clouds == Without(old(clouds), {s})
      ensures coins == Without(old(coins), {s}) && allSprites == Without(old(allSprites), {s})
      ensures paused == old(paused) && score == old(score) && gameOverView == old(gameOverView)
    {
      enemies := Without(enemies, {s});
      clouds := Without(clouds, {s});
      coins := Without(coins, {s});
      allSprites := Without(allSprites, {s});
    }

    /** The update of one sprite of `all_sprites`: it moves one frame
        (`Sprite.update`); a `FlyingSprite` whose right edge is then left of
        the screen removes itself from every list. */
    method UpdateSprite(s: Sprite)
      modifies this, s
      ensures s.Value() == Step(old(s.Value()))
      ensures var gone := if s.flying && OffLeft(s.Value()) then {s} else {};
        && enemies == Without(old(enemies), gone) && clouds == Without(old(clouds), gone)
        && coins == Without(old(coins), gone) && allSprites == Without(old(allSprites), gone)
      ensures paused == old(paused) && score == old(score) && gameOverView == old(gameOverView)
    {
      s.Update();
      if s.flying && s.Value().Right() < 0 {
        RemoveFromSpriteLists(s);
      } else {
        WithoutNothing(enemies, {});
        WithoutNothing(clouds, {});
        WithoutNothing(coins, {});
        WithoutNothing(allSprites, {});
      }
    }

    /** The loop of `all_sprites.update()`: each sprite present when the
        frame starts is updated once, in list order. Every one of them has
        taken one step, and exactly the flying ones now off the left edge
        (`despawned`) have left the lists. */
    method UpdateSprites() returns (ghost despawned: set<Sprite>)
      requires Distinct(allSprites)
      modifies this, allSprites
      ensures forall x :: x in old(allSprites) ==> x.Value() == Step(old(x.Value()))
      ensures forall x :: x in despawned <==> x in old(allSprites) && x.flying && OffLeft(Step(old(x.Value())))
      ensures enemies == Without(old(enemies), despawned) && clouds == Without(old(clouds), despawned)
      ensures coins == Without(old(coins), despawned) && allSprites == Without(old(allSprites), despawned)
      ensures paused == old(paused) && score == old(score) && gameOverView == old(gameOverView)
    {
      var sprites := allSprites;
      despawned := {};
      WithoutNothing(enemies, {});
      WithoutNothing(clouds, {});
      WithoutNothing(coins, {});
      WithoutNothing(allSprites, {});
      var i := 0;
      while i < |sprites|
        invariant 0 <= i <= |sprites| && Distinct(sprites)
        invariant forall j :: 0 <= j < i ==> sprites[j].Value() == Step(old(sprites[j].Value()))
        invariant forall j :: i <= j < |sprites| ==> sprites[j].Value() == old(sprites[j].Value())
        invariant forall x :: x in despawned ==> x in sprites && x.flying
        invariant forall j :: i <= j < |sprites| ==> sprites[j] !in despawned
        invariant forall j :: 0 <= j < i ==> (sprites[j] in despawned <==> sprites[j].flying && OffLeft(Step(old(sprites[j].Value()))))
        invariant enemies == Without(old(enemies), despawned) && clouds == Without(old(clouds), despawned)
        invariant coins == Without(old(coins), despawned) && allSprites == Without(sprites, despawned)
        invariant paused == old(paused) && score == old(score) && gameOverView == old(gameOverView)
      {
        var s := sprites[i];
        label Before:
        UpdateSprite(s);
        forall j | 0 <= j < |sprites| && j != i
          ensures sprites[j].Value() == old@Before(sprites[j].Value())
        {
          assert sprites[j] != s && sprites[j] as object != this;
        }
        ghost var gone := if s.flying && OffLeft(s.Value()) then {s} else {};
        WithoutWithout(old(enemies), despawned, gone);
        WithoutWithout(old(clouds), despawned, gone);
        WithoutWithout(old(coins), despawned, gone);
        WithoutWithout(sprites, despawned, gone);
        despawned := despawned + gone;
        i := i + 1;
      }
    }

    /** `all_sprites.update()` in terms of states: the world moves as `Move`
        says. */
    method UpdateAll() returns (ghost despawned: set<Sprite>)
      requires Valid()
      modifies this, allSprites
      ensures Valid()
      ensures Model() == Move(old(Model()))
      ensures forall x :: x in despawned <==> x in old(allSprites) && x.flying && OffLeft(Step(old(x.Value())))
      ensures enemies == Without(old(enemies), despawned) && clouds == Without(old(clouds), despawned)
      ensures coins == Without(old(coins), despawned) && allSprites == Without(old(allSprites), despawned)
      ensures gameOverView == old(gameOverView)
    {
      ghost var m := Model();
      ghost var lists := (enemies, clouds, coins);
      despawned := UpdateSprites();
      assert player !in despawned;
      PartitionedWithout(player, old(allSprites), lists.0, lists.1, lists.2, despawned);
      ValuesAdvance(lists.0, m.enemies, despawned);
      ValuesAdvance(lists.1, m.clouds, despawned);
      ValuesAdvance(lists.2, m.coins, despawned);
    }

    /** The coin part of the tick: if the player overlaps any coin the score
        grows by one, whatever the number of coins, and each overlapping coin
        (`hit`) is removed from every list. */
    method CollectCoins() returns (ghost hit: set<Sprite>)
      requires Valid()
      modifies this
      ensures Valid()
      ensures Model() == CoinPickup(old(Model()))
      ensures forall x :: x in hit <==> x in old(coins) && Overlaps(player.Value(), x.Value())
      ensures coins == Without(old(coins), hit) && allSprites == Without(old(allSprites), hit)
      ensures enemies == old(enemies) && clouds == old(clouds) && gameOverView == old(gameOverView)
    {
      var hits := CollidesWithList(player, coins);
      assert Values(coins) == old(Values(coins));
      assert Values(enemies) == old(Values(enemies));
      assert Values(clouds) == old(Values(clouds));
      assert Model() == old(Model());
      hit := TakeCoins(hits);
    }

    /** The coin `if` once `hits` holds exactly the coins the player
        overlaps. */
    method TakeCoins(hits: seq<Sprite>) returns (ghost hit: set<Sprite>)
      requires Valid()
      requires forall x :: x in hits ==> x in coins && Overlaps(player.Value(), x.Value())
      requires forall x :: x in coins && Overlaps(player.Value(), x.Value()) ==> x in hits
      requires |hits| > 0 <==> HitsAny(player.Value(), Values(coins))
      modifies this
      ensures Valid()
      ensures Model() == CoinPickup(old(Model()))
      ensures forall x :: x in hit <==> x in old(coins) && Overlaps(player.Value(), x.Value())
      ensures coins == Without(old(coins), hit) && allSprites == Without(old(allSprites), hit)
      ensures enemies == old(enemies) && clouds == old(clouds) && gameOverView == old(gameOverView)
    {
      hit := set x | x in hits;
      assert Values(Without(coins, hit)) == Missed(player.Value(), Values(coins)) by {
        ValuesMissed(player.Value(), coins, hit);
      }
      assert Without(enemies, hit) == enemies && Without(clouds, hit) == clouds by {
        WithoutNothing(enemies, hit);
        WithoutNothing(clouds, hit);
      }
      assert Valid() && player !in hit;
      ghost var m := Model();
      if |hits| > 0 {
        var removed := ScoreAndRemove(hits);
        assert removed == hit;
        assert Model() == m.(score := m.score + 1, coins := Missed(m.player, m.coins));
        assert CoinPickup(m) == m.(score := m.score + 1, coins := Missed(m.player, m.coins));
      } else {
        assert hit == {};
        WithoutNothing(coins, {});
        WithoutNothing(allSprites, {});
        assert Model() == m.(coins := Missed(m.player, m.coins));
        assert CoinPickup(m) == m.(coins := Missed(m.player, m.coins));
      }
      assert Valid() by {
        PartitionedWithout(player, old(allSprites), old(enemies), old(clouds), old(coins), hit);
      }
    }

    /** The body of the coin `if`: one more point, then each sprite of
        `hits` leaves every list. */
    method ScoreAndRemove(hits: seq<Sprite>) returns (ghost removed: set<Sprite>)
      modifies this
      ensures forall x :: x in removed <==> x in hits
      ensures enemies == Without(old(enemies), removed) && clouds == Without(old(clouds), removed)
      ensures coins == Without(old(coins), removed) && allSprites == Without(old(allSprites), removed)
      ensures gameOverView == old(gameOverView)
      ensures Model() == old(Model()).(score := old(score) + 1,
        enemies := old(Values(Without(enemies, removed))),
        clouds := old(Values(Without(clouds, removed))),
        coins := old(Values(Without(coins, removed))))
    {
      ghost var m := Model();
      score := score + 1;
      removed := RemoveEach(hits);
      assert Values(enemies) == old(Values(Without(enemies, removed)));
      assert Values(clouds) == old(Values(Without(clouds, removed)));
      assert Values(coins) == old(Values(Without(coins, removed)));
    }

    /** `remove_from_sprite_lists` on each sprite of `gone`, in order: the
        lists lose exactly those sprites (`removed`). */
    method RemoveEach(gone: seq<Sprite>) returns (ghost removed: set<Sprite>)
      modifies this
      ensures forall x :: x in removed <==> x in gone
      ensures enemies == Without(old(enemies), removed) && clouds == Without(old(clouds), removed)
      ensures coins == Without(old(coins), removed) && allSprites == Without(old(allSprites), removed)
      ensures paused == old(paused) && score == old(score) && gameOverView == old(gameOverView)
    {
      removed := {};
      WithoutNothing(enemies, {});
      WithoutNothing(clouds, {});
      WithoutNothing(coins, {});
      WithoutNothing(allSprites, {});
      var k := 0;
      while k < |gone|
        invariant 0 <= k <= |gone|
        invariant forall x :: x in removed ==> x in gone
        invariant forall j :: 0 <= j < k ==> gone[j] in removed
        invariant enemies == Without(old(enemies), removed) && clouds == Without(old(clouds), removed)
        invariant coins == Without(old(coins), removed) && allSprites == Without(old(allSprites), removed)
        invariant paused == old(paused) && score == old(score) && gameOverView == old(gameOverView)
      {
        var c := gone[k];
        RemoveFromSpriteLists(c);
        WithoutWithout(old(enemies), removed, {c});
        WithoutWithout(old(clouds), removed, {c});
        WithoutWithout(old(coins), removed, {c});
        WithoutWithout(old(allSprites), removed, {c});
        removed := removed + {c};
        k := k + 1;
      }
    }

    /** The end of the tick: the top edge is pulled down to the screen
        height, then the right edge to the screen width, then the bottom
        edge up to 0, then the left edge up to 0. */
    method KeepPlayerOnScreen()
      requires Valid()
      modifies player
      ensures Valid()
      ensures Model() == KeepOnScreen(old(Model()))
    {
      ghost var m := Model();
      if player.Value().Top() > ScreenHeight {
        player.bottom := ScreenHeight - player.height;
      }
      if player.Value().Right() > ScreenWidth {
        player.left := ScreenWidth - player.width;
      }
      if player.bottom < 0 {
        player.bottom := 0;
      }
      if player.left < 0 {
        player.left := 0;
      }
      assert Values(enemies) == m.enemies;
      assert Values(clouds) == m.clouds;
      assert Values(coins) == m.coins;
    }

    /** `on_update`: one frame of the game, following `Tick`. While paused
        nothing changes. Otherwise an enemy collision shows a game-over view
        with the score as it is before the coins are counted, and the rest
        of the frame still runs; `removed` is every sprite that left the
        lists: the coins the player touched and the flying sprites that
        moved off the left edge. */
    method OnUpdate() returns (ghost removed: set<Sprite>)
      requires Valid()
      modifies this, allSprites
      ensures Valid()
      ensures Model() == Tick(old(Model()))
      ensures old(paused) ==> unchanged(this) && forall x :: x in old(allSprites) ==> unchanged(x)
      ensures forall x :: x in removed ==> !old(paused) && x in old(allSprites) && x.flying
      ensures enemies == Without(old(enemies), removed) && clouds == Without(old(clouds), removed)
      ensures coins == Without(old(coins), removed) && allSprites == Without(old(allSprites), removed)
      ensures gameOverView != old(gameOverView) ==> fresh(gameOverView)
    {
      if paused {
        removed := {};
        WithoutNothing(enemies, {});
        WithoutNothing(clouds, {});
        WithoutNothing(coins, {});
        WithoutNothing(allSprites, {});
        return;
      }
      removed := Frame();
    }

    /** An unpaused frame: the enemy check, the coin pickup, the update of
        every sprite, and the clamp of the player. */
    method Frame() returns (ghost removed: set<Sprite>)
      requires Valid() && !paused
      modifies this, allSprites
      ensures Valid()
      ensures Model() == Tick(old(Model()))
      ensures forall x :: x in removed ==> x in old(allSprites) && x.flying
      ensures enemies == Without(old(enemies), removed) && clouds == Without(old(clouds), removed)
      ensures coins == Without(old(coins), removed) && allSprites == Without(old(allSprites), removed)
      ensures gameOverView != old(gameOverView) ==> fresh(gameOverView)
    {
      ghost var m := Model();
      var hitEnemies := CollidesWithList(player, enemies);
      assert Values(coins) == old(Values(coins));
      assert Values(enemies) == old(Values(enemies));
      assert Values(clouds) == old(Values(clouds));
      assert Model() == m;
      if |hitEnemies| > 0 {
        ShowGameOver();
      }
      assert Model() == EnemyCheck(m);
      ghost var hit := CollectCoins();
      assert enemies == Without(old(enemies), hit) && clouds == Without(old(clouds), hit) by {
        WithoutNothing(old(enemies), hit);
        WithoutNothing(old(clouds), hit);
      }
      assert forall x :: x in hit ==> x in old(allSprites) && x.flying;
      WithoutMembers(old(allSprites), hit);
      assert forall i :: 0 <= i < |allSprites| ==> allSprites[i] in old(allSprites);
      ghost var despawned := UpdateAll();
      assert forall x :: x in despawned ==> x in old(allSprites) && x.flying;
      KeepPlayerOnScreen();
      TickPhases(m);
      removed := hit + despawned;
      WithoutWithout(old(enemies), hit, despawned);
      WithoutWithout(old(clouds), hit, despawned);
      WithoutWithout(old(coins), hit, despawned);
      WithoutWithout(old(allSprites), hit, despawned);
    }

    /** `show_view(GameOverView(self.score))`: the game-over view, carrying
        the current score, replaces this one. */
    method ShowGameOver()
      requires Valid()
      modifies this
      ensures Valid() && fresh(gameOverView)
      ensures Model() == old(Model()).(gameOver := Some(old(score)))
      ensures allSprites == old(allSprites) && enemies == old(enemies)
      ensures clouds == old(clouds) && coins == old(coins)
    {
      ghost var m := Model();
      gameOverView := new GameOverView(score);
      assert Values(enemies) == m.enemies;
      assert Values(clouds) == m.clouds;
      assert Values(coins) == m.coins;
    }

    /** `on_key_press` for P and the movement keys: P toggles the pause;
        I and Up set the vertical speed to 5, K and Down to -5; J and Left
        set the horizontal speed to -5, L and Right to 5. */
    method OnKeyPress(key: Key)
      requires Valid()
      modifies this, player
      ensures Valid()
      ensures Model() == Press(old(Model()), key)
      ensures allSprites == old(allSprites) && enemies == old(enemies)
      ensures clouds == old(clouds) && coins == old(coins)
    {
      ghost var m := Model();
      if key == P {
        paused := !paused;
      }
      if IsUpKey(key) {
        player.changeY := 5;
      }
      if IsDownKey(key) {
        player.changeY := -5;
      }
      if IsLeftKey(key) {
        player.changeX := -5;
      }
      if IsRightKey(key) {
        player.changeX := 5;
      }
      assert Values(enemies) == m.enemies;
      assert Values(clouds) == m.clouds;
      assert Values(coins) == m.coins;
    }

    /** `on_key_release`: a vertical movement key (I, K, Up, Down) stops
        vertical motion, a horizontal one (J, L, Left, Right) stops
        horizontal motion. */
    method OnKeyRelease(key: Key)
      requires Valid()
      modifies player
      ensures Valid()
      ensures Model() == Release(old(Model()), key)
    {
      ghost var m := Model();
      if IsVertical(key) {
        player.changeY := 0;
      }
      if IsHorizontal(key) {
        player.changeX := 0;
      }
      assert Values(enemies) == m.enemies;
      assert Values(clouds) == m.clouds;
      assert Values(coins) == m.coins;
    }
  }
}
