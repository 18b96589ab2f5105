/**
 * The world tick run after every resolved action (`random_world_event`,
 * main.py:647-676, and the weather and time drift, main.py:756-772), with
 * every random draw as a parameter.
 */
module World {
  import opened Wrappers
  import opened State
  import opened Effects

  /** The five ambient events, as the effect records they apply. */
  function EventEffects(k: nat): (d: Delta)
    requires k < 5
    ensures |d.changes| == 1 && forall st :: st in d.changes ==> d.changes[st] > 0
    ensures d.(changes := map[]) == NoEffects
  {
    var changes :=
      if k == 0 then map[Mana := 10]
      else if k == 1 then map[Gold := 12]
      else if k == 2 then map[Health := 8]
      else if k == 3 then map[Intelligence := 1]
      else map[Strength := 1];
    NoEffects.(changes := changes)
  }

  const WeatherOptions: seq<string> := ["晴朗", "多云", "小雨", "起雾", "微风", "星空闪烁"]
  const TimeOptions: seq<string> := ["黎明", "上午", "正午", "下午", "黄昏", "夜晚", "深夜"]

  /**
   * The drift of the weather and the time of day. `weather` is the drawn
   * weather when the 12% draw fires; `time` is the drawn time when, after
   * that, the 40% draw fires too.
   */
  function Drift(s: Snapshot, weather: Option<nat>, time: Option<nat>): (r: Snapshot)
    requires weather.Some? ==> weather.value < |WeatherOptions|
    requires time.Some? ==> weather.Some? && time.value < |TimeOptions|
    ensures r == s.(weather := r.weather, timeOfDay := r.timeOfDay)
    ensures r.weather == s.weather || r.weather in WeatherOptions
    ensures r.timeOfDay == s.timeOfDay || r.timeOfDay in TimeOptions
    ensures weather.None? ==> r == s
    ensures weather.Some? ==> r.weather == WeatherOptions[weather.value]
    ensures time.None? ==> r.timeOfDay == s.timeOfDay
    ensures time.Some? ==> r.timeOfDay == TimeOptions[time.value]
  {
    match weather
    case None => s
    case Some(w) =>
      var t := s.(weather := WeatherOptions[w]);
      match time
      case None => t
      case Some(k) => t.(timeOfDay := TimeOptions[k])
  }
}
