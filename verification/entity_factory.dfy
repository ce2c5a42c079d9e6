/** The fixed stat table: the templates every placed entity is copied from. */
module Factory {
  import opened Entities

  const CorpseTemplate: Entity := NewEntity("corpse", 'q', false)
  const PlayerTemplate: Entity := NewFighter("player", '@', true, 20, 5, 2)
  const ZombieTemplate: Entity := NewAIFighter("zombie", 'z', true, 8, 3, 1)
  const VampireTemplate: Entity := NewAIFighter("vampire", 'v', true, 12, 4, 1)
  const ExitTemplate: Entity := NewExit("exit", '>', false)
  const PotionTemplate: Entity := NewPotion("health potion", '+', false, 10)

  /** The stat table as the game defines it. */
  lemma StatTable()
    ensures IsFighter(PlayerTemplate) && PlayerTemplate.glyph == '@' && PlayerTemplate.blocksMovement
    ensures PlayerTemplate.role.hp == 20 && PlayerTemplate.role.maxHp == 20
    ensures PlayerTemplate.role.attack == 5 && PlayerTemplate.role.defense == 2
    ensures PlayerTemplate.role.side.gold == 0
    ensures IsAIFighter(ZombieTemplate) && ZombieTemplate.glyph == 'z' && ZombieTemplate.blocksMovement
    ensures ZombieTemplate.role.hp == 8 && ZombieTemplate.role.attack == 3 && ZombieTemplate.role.defense == 1
    ensures IsAIFighter(VampireTemplate) && VampireTemplate.glyph == 'v' && VampireTemplate.blocksMovement
    ensures VampireTemplate.role.hp == 12 && VampireTemplate.role.attack == 4 && VampireTemplate.role.defense == 1
    ensures IsExit(ExitTemplate) && ExitTemplate.glyph == '>' && !ExitTemplate.blocksMovement
    ensures IsPotion(PotionTemplate) && PotionTemplate.glyph == '+' && !PotionTemplate.blocksMovement
    ensures PotionTemplate.role.effect == Potion(10, 0, 0)
    ensures !IsActor(CorpseTemplate) && !IsItem(CorpseTemplate)
    ensures CorpseTemplate.glyph == 'q' && !CorpseTemplate.blocksMovement
  {
  }

  /** One player attack takes a fresh zombie from 8 to 4 hp; a second kills it. An enemy whose
      attack does not exceed the player's defense does no damage. */
  lemma PlayerKillsZombieInTwoHits()
    ensures Damage(ZombieTemplate, PlayerTemplate.role.attack).role.hp == 4
    ensures !IsDead(Damage(ZombieTemplate, PlayerTemplate.role.attack))
    ensures IsDead(Damage(Damage(ZombieTemplate, PlayerTemplate.role.attack), PlayerTemplate.role.attack))
    ensures Wound(PlayerTemplate, 2) == 0
  {
  }
}
