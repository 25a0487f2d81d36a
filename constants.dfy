/** The fixed parameters of the duel (src/lib/board.ts, lines 1-5). */
module Constants {
  const HeroRadius: int := 15
  const MouseRadius: int := 5
  const ProjectileVelocity: int := 5
  const ProjectileRadius: int := 5
  const MaxProjectiles: nat := 1000

  /** Horizontal distance of a hero's centre from its edge of the arena. */
  const HeroInset: int := 50
  /** Vertical position at which both heroes start. */
  const HeroStartY: int := 20
}
