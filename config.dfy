/** The constants of include/Config.hpp that the modelled code reads. */
module Config {
  /** config.gravitational_constant */
  const GravitationalConstant: real := 0.8
  /** config.gravityGridCellSize */
  const GravityGridCellSize: int := 500
  /** config.COLLISION_DAMPENING */
  const CollisionDampening: real := 0.2
  /** config.windowHeight */
  const WindowHeight: int := 1080
  /** config.windowWidth */
  const WindowWidth: int := 1920
  /** config.particleSize */
  const ParticleSize: int := 2
}
