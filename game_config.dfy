/** The three `game.*` tables read from the application properties:
    difficulty to damage, boss status to starting HP, and boss status to
    the experience awarded for defeating it. They are read-only for every
    operation of the model. */
module GameConfig {
  import opened Common

  datatype Config = Config(
    difficultyDamage: map<string, int>,
    bossHp: map<string, int>,
    bossXpReward: map<string, int>)

  /** The deployment supplies no negative damage, HP or reward. */
  ghost predicate NonNegative(cfg: Config)
  {
    && (forall k :: k in cfg.difficultyDamage ==> cfg.difficultyDamage[k] >= 0)
    && (forall k :: k in cfg.bossHp ==> cfg.bossHp[k] >= 0)
    && (forall k :: k in cfg.bossXpReward ==> cfg.bossXpReward[k] >= 0)
  }

  /** `difficultyDamageMap.getOrDefault(difficulty, 0)`. */
  function Damage(cfg: Config, difficulty: Option<string>): (d: int)
    ensures NonNegative(cfg) ==> d >= 0
    ensures difficulty.Some? && difficulty.value in cfg.difficultyDamage ==>
      d == cfg.difficultyDamage[difficulty.value]
    ensures (difficulty.None? || difficulty.value !in cfg.difficultyDamage) ==> d == 0
  {
    GetOrDefault(cfg.difficultyDamage, difficulty, 0)
  }

  /** `bossHpMap.getOrDefault(status, 100)`. */
  function DefaultMaxHp(cfg: Config, status: Option<string>): (hp: int)
    ensures NonNegative(cfg) ==> hp >= 0
    ensures status.Some? && status.value in cfg.bossHp ==> hp == cfg.bossHp[status.value]
    ensures (status.None? || status.value !in cfg.bossHp) ==> hp == 100
  {
    GetOrDefault(cfg.bossHp, status, 100)
  }

  /** `bossXpRewardMap.getOrDefault(status, 0)`. */
  function XpReward(cfg: Config, status: Option<string>): (xp: int)
    ensures NonNegative(cfg) ==> xp >= 0
    ensures status.Some? && status.value in cfg.bossXpReward ==> xp == cfg.bossXpReward[status.value]
    ensures (status.None? || status.value !in cfg.bossXpReward) ==> xp == 0
  {
    GetOrDefault(cfg.bossXpReward, status, 0)
  }
}
