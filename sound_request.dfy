/**
 * CustomSoundRequest: a value naming an event together with a string-to-string
 * dictionary of parameters. Its two constructors are modelled as functions that
 * build the value.
 */
module SoundRequest {

  datatype CustomSoundRequest = CustomSoundRequest(event: string, data: map<string, string>)

  /** The two-argument constructor: keeps the event name and the dictionary as given. */
  function WithData(event: string, data: map<string, string>): (r: CustomSoundRequest)
    ensures r.event == event
    ensures r.data.Keys == data.Keys
    ensures forall k :: k in data ==> r.data[k] == data[k]
  {
    CustomSoundRequest(event, data)
  }

  /** The three-argument constructor: keeps the event name and builds a one-entry dictionary. */
  function WithEntry(event: string, key: string, value: string): (r: CustomSoundRequest)
    ensures r.event == event
    ensures |r.data| == 1
    ensures key in r.data && r.data[key] == value
  {
    CustomSoundRequest(event, map[key := value])
  }

  /** The three-argument constructor is the two-argument one applied to a singleton dictionary. */
  lemma WithEntryIsSingletonData(event: string, key: string, value: string)
    ensures WithEntry(event, key, value) == WithData(event, map[key := value])
    ensures WithEntry(event, key, value).data.Keys == {key}
  {
  }
}
