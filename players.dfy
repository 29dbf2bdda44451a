/**
  The player table: the columns the recommendation step reads from each row,
  and the fixed, ordered list of skill columns (`feature_cols`) that make up
  the feature vector handed to the scaler and the nearest-neighbour model.
 */
module Players {

  /** The 35 skill columns, in the order the scaler and the neighbour model were fitted on. */
  const FeatureCols: seq<string> := [
    "pace", "shooting", "passing", "dribbling", "defending", "physic",
    "attacking_crossing", "attacking_finishing", "attacking_heading_accuracy",
    "attacking_short_passing", "attacking_volleys",
    "skill_dribbling", "skill_curve", "skill_fk_accuracy", "skill_long_passing",
    "skill_ball_control",
    "movement_acceleration", "movement_sprint_speed", "movement_agility",
    "movement_reactions", "movement_balance",
    "power_shot_power", "power_jumping", "power_stamina", "power_strength",
    "power_long_shots",
    "mentality_aggression", "mentality_interceptions", "mentality_positioning",
    "mentality_vision", "mentality_penalties", "mentality_composure",
    "defending_marking_awareness", "defending_standing_tackle", "defending_sliding_tackle"
  ]

  /** Number of dimensions of a feature vector. */
  const FeatureCount: nat := 35

  /**
    One row of the player table. `skills` maps a column name to the row's
    value in that column; the display-only columns (club, nationality,
    overall rating, face image) are not part of this model.
   */
  datatype Player = Player(shortName: string, age: int, valueEur: int, skills: map<string, int>)

  /** The row has every column in `cols`, so selecting `row[cols]` cannot fail. */
  predicate HasColumns(p: Player, cols: seq<string>)
  {
    forall c <- cols :: c in p.skills
  }

  /** The row conforms to the schema: it has every skill column. */
  predicate Conforms(p: Player)
  {
    HasColumns(p, FeatureCols)
  }

  /** Column selection `row[cols].values`: the row's values, one per column, in the order of `cols`. */
  function Project(p: Player, cols: seq<string>): (r: seq<int>)
    requires HasColumns(p, cols)
    ensures |r| == |cols|
    ensures forall k :: 0 <= k < |cols| ==> r[k] == p.skills[cols[k]]
  {
    if cols == [] then [] else [p.skills[cols[0]]] + Project(p, cols[1..])
  }

  /** The raw feature vector of a row: `row[feature_cols].values`. */
  function FeatureVector(p: Player): (v: seq<int>)
    requires Conforms(p)
    ensures |v| == FeatureCount
    ensures forall k :: 0 <= k < FeatureCount ==> v[k] == p.skills[FeatureCols[k]]
  {
    Project(p, FeatureCols)
  }

  /** Every skill column name is distinct, so each slot of a feature vector names exactly one dimension. */
  lemma FeatureColsDistinct()
    ensures |FeatureCols| == FeatureCount
    ensures forall i, j :: 0 <= i < j < |FeatureCols| ==> FeatureCols[i] != FeatureCols[j]
  {
  }
}
