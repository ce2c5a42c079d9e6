/** Game objects that stand on the grid: the class hierarchy Entity / Actor (Fighter, AIFighter) /
    Item (Potion, Exit) as one record with a closed variant for the layer below Entity. */
module Entities {
  import opened Geometry

  /** Which kind of Actor: the player-controlled Fighter keeps gold; AIFighters are hostile. */
  datatype Side = Fighter(gold: int) | AIFighter

  /** What an Item does when the player takes it. */
  datatype Effect = Potion(heal: int, attackBonus: int, defenseBonus: int) | Exit

  /** A plain Entity (the corpse), an Actor with hit points and combat stats, or an Item. */
  datatype Role =
    | Plain
    | Actor(hp: int, maxHp: int, attack: int, defense: int, side: Side)
    | Item(effect: Effect)

  /** An entity; `pos` is the cell most recently given to SetPos (Pos(0, 0) before any). */
  datatype Entity = Entity(name: string, glyph: char, blocksMovement: bool, pos: Pos, role: Role)

  predicate IsActor(e: Entity) { e.role.Actor? }
  predicate IsFighter(e: Entity) { e.role.Actor? && e.role.side.Fighter? }
  predicate IsAIFighter(e: Entity) { e.role.Actor? && e.role.side.AIFighter? }
  predicate IsItem(e: Entity) { e.role.Item? }
  predicate IsPotion(e: Entity) { e.role.Item? && e.role.effect.Potion? }
  predicate IsExit(e: Entity) { e.role.Item? && e.role.effect.Exit? }

  /** A plain entity: neither Actor nor Item. */
  function NewEntity(name: string, glyph: char, blocksMovement: bool): (e: Entity)
    ensures !IsActor(e) && !IsItem(e)
    ensures e.name == name && e.glyph == glyph && e.blocksMovement == blocksMovement
  {
    Entity(name, glyph, blocksMovement, Pos(0, 0), Plain)
  }

  /** A new Fighter starts at full health (max hp equals hp) with no gold. */
  function NewFighter(name: string, glyph: char, blocksMovement: bool,
                      hp: int, attack: int, defense: int): (e: Entity)
    ensures IsFighter(e) && e.role.side.gold == 0
    ensures e.role.hp == hp && e.role.maxHp == hp
    ensures e.role.attack == attack && e.role.defense == defense
    ensures e.name == name && e.glyph == glyph && e.blocksMovement == blocksMovement
  {
    Entity(name, glyph, blocksMovement, Pos(0, 0), Actor(hp, hp, attack, defense, Fighter(0)))
  }

  /** A new AIFighter starts at full health. */
  function NewAIFighter(name: string, glyph: char, blocksMovement: bool,
                        hp: int, attack: int, defense: int): (e: Entity)
    ensures IsAIFighter(e)
    ensures e.role.hp == hp && e.role.maxHp == hp
    ensures e.role.attack == attack && e.role.defense == defense
    ensures e.name == name && e.glyph == glyph && e.blocksMovement == blocksMovement
  {
    Entity(name, glyph, blocksMovement, Pos(0, 0), Actor(hp, hp, attack, defense, AIFighter))
  }

  /** A potion; items do not block movement unless told to, and bonuses default to zero. */
  function NewPotion(name: string, glyph: char, blocksMovement: bool := false,
                     hp: int := 0, attack: int := 0, defense: int := 0): (e: Entity)
    ensures IsPotion(e) && e.role.effect == Potion(hp, attack, defense)
    ensures e.name == name && e.glyph == glyph && e.blocksMovement == blocksMovement
  {
    Entity(name, glyph, blocksMovement, Pos(0, 0), Item(Potion(hp, attack, defense)))
  }

  function NewExit(name: string, glyph: char, blocksMovement: bool := false): (e: Entity)
    ensures IsExit(e)
    ensures e.name == name && e.glyph == glyph && e.blocksMovement == blocksMovement
  {
    Entity(name, glyph, blocksMovement, Pos(0, 0), Item(Exit))
  }

  /** Places the entity; its position is then exactly (x, y) and nothing else changes. */
  function SetPos(e: Entity, x: int, y: int): (r: Entity)
    ensures r.pos == Pos(x, y)
    ensures r.name == e.name && r.glyph == e.glyph && r.blocksMovement == e.blocksMovement
    ensures r.role == e.role
  {
    e.(pos := Pos(x, y))
  }

  /** The hit points an attack of strength `amount` takes from an actor: never negative. */
  function Wound(e: Entity, amount: int): (w: int)
    requires IsActor(e)
    ensures w >= 0
    ensures amount <= e.role.defense ==> w == 0
    ensures amount > e.role.defense ==> w + e.role.defense == amount
  {
    Max(amount - e.role.defense, 0)
  }

  /** Takes an attack of strength `amount`: hp falls by exactly Wound(e, amount), so it never
      rises; every other field is untouched (dying has no further effect). */
  function Damage(e: Entity, amount: int): (r: Entity)
    requires IsActor(e)
    ensures IsActor(r) && r.role.hp == e.role.hp - Wound(e, amount)
    ensures r.role.hp <= e.role.hp
    ensures r == e.(role := e.role.(hp := r.role.hp))
  {
    e.(role := e.role.(hp := e.role.hp - Wound(e, amount)))
  }

  /** An actor is dead exactly when its hp is at most zero. */
  predicate IsDead(e: Entity)
    requires IsActor(e)
  {
    !(e.role.hp > 0)
  }

  /** Shifts the actor's position by (dx, dy) and changes nothing else. */
  function Move(e: Entity, dx: int, dy: int): (r: Entity)
    requires IsActor(e)
    ensures r.pos.x - e.pos.x == dx && r.pos.y - e.pos.y == dy
    ensures r == e.(pos := r.pos)
  {
    e.(pos := Pos(e.pos.x + dx, e.pos.y + dy))
  }

  /** The hit points a potion restores: its heal amount, but no further than max hp. */
  function Restored(player: Entity, potion: Entity): (h: int)
    requires IsFighter(player) && IsPotion(potion)
    ensures h <= potion.role.effect.heal
    ensures h <= player.role.maxHp - player.role.hp
    ensures h == potion.role.effect.heal || h == player.role.maxHp - player.role.hp
  {
    Min(player.role.maxHp - player.role.hp, potion.role.effect.heal)
  }

  /** Potion.perform: heals by Restored and adds the attack and defense bonuses verbatim. */
  function Drink(player: Entity, potion: Entity): (r: Entity)
    requires IsFighter(player) && IsPotion(potion)
    ensures IsFighter(r)
    ensures r.role.hp == player.role.hp + Restored(player, potion)
    ensures r.role.attack == player.role.attack + potion.role.effect.attackBonus
    ensures r.role.defense == player.role.defense + potion.role.effect.defenseBonus
    ensures r.role.maxHp == player.role.maxHp && r.role.side == player.role.side
    ensures r.name == player.name && r.glyph == player.glyph && r.pos == player.pos
    ensures r.blocksMovement == player.blocksMovement
  {
    var p := potion.role.effect;
    player.(role := player.role.(hp := player.role.hp + Restored(player, potion),
                                 attack := player.role.attack + p.attackBonus,
                                 defense := player.role.defense + p.defenseBonus))
  }

  /** Death is the hp threshold: damage kills exactly when the wound reaches the remaining hp. */
  lemma DamageKillsIffWoundReachesHp(e: Entity, amount: int)
    requires IsActor(e)
    ensures IsDead(Damage(e, amount)) <==> e.role.hp <= Wound(e, amount)
    ensures IsDead(e) ==> IsDead(Damage(e, amount))
  {
  }

  /** Moving and moving back is the identity. */
  lemma MoveInverse(e: Entity, dx: int, dy: int)
    requires IsActor(e)
    ensures Move(Move(e, dx, dy), -dx, -dy) == e
  {
  }

  /** A potion never overheals: from hp at most max hp, drinking (a non-negative heal) leaves hp
      between its old value and max hp, and a second potion on a full player heals nothing. */
  lemma DrinkStaysWithinMax(player: Entity, potion: Entity)
    requires IsFighter(player) && IsPotion(potion)
    requires player.role.hp <= player.role.maxHp && potion.role.effect.heal >= 0
    ensures player.role.hp <= Drink(player, potion).role.hp <= player.role.maxHp
    ensures Drink(player, potion).role.hp == player.role.maxHp ==>
              Restored(Drink(player, potion), potion) == 0
  {
  }
}
