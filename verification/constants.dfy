/** The game constants of include/Constants.h that the core uses. */
module Constants {
  const MaxInventorySize: int := 10
  const MaxCarryWeight: int := 100
  const InitialPlayerHealth: int := 100

  const ScoreItemPickup: int := 5
  const ScoreRoomDiscovered: int := 10
  const ScoreEnemyDefeated: int := 50

  const BaseAttackDamage: int := 10
  const BaseDefense: int := 5
  const CriticalHitMultiplier: int := 2
}
